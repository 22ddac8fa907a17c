/** Which texts the strict reader accepts, and as what: an exact account, line by line and directive by directive,
    that follows no order of reading. */
module WgExact {
  import opened Outcomes
  import opened Text
  import opened Ipv4
  import opened Lib
  import opened Topology
  import opened WgQuick
  import opened WgPrint
  import opened WgRoundTrip
  import Chars

  // -------------------------------------------------------------------
  // Lines
  // -------------------------------------------------------------------

  /** What a line stands for. */
  datatype Item = Nothing | Head(name: SectionName) | Directive(field: Field)

  /** The line stands for `item`: blank or a comment, a section header, or a directive whose value has no control
      characters. No line holds a carriage return. */
  ghost predicate StandsFor(raw: string, item: Item) {
    Lacks(raw, '\r') && exists spaced, line :: LosesSpaces(raw, spaced) && LosesTabs(spaced, line) && LineSays(line, item)
  }

  /** What a trimmed line says. */
  ghost predicate LineSays(line: string, item: Item) {
    match item
    case Nothing => line == "" || line[0] == '#'
    case Head(name) => line == if name.Interface? then "[Interface]" else "[Peer]"
    case Directive(f) =>
      && |line| > 0 && line[0] != '#' && line[0] != '['
      && exists k, v :: line == k + "=" + v && Lacks(k, '=') && LosesBlanks(k, f.key) && LosesBlanks(v, f.value)
                        && forall c :: c in f.value ==> !Chars.IsControl(c)
  }

  /** The sections with one item added; none if there is no section to add a directive to. */
  function Grown(sections: seq<Section>, item: Item): Option<seq<Section>> {
    match item
    case Nothing => Some(sections)
    case Head(name) => Some(sections + [Section(name, [])])
    case Directive(f) =>
      if |sections| == 0 then None
      else
        var last := sections[|sections| - 1];
        Some(sections[..|sections| - 1] + [Section(last.name, last.fields + [f])])
  }

  lemma HeaderExactly(line: string)
    requires |line| > 0 && line[0] == '['
    ensures forall name :: SectionHeader(line) == Ok(name) <==> line == if name.Interface? then "[Interface]" else "[Peer]"
  {
    var inner := line[1..];
    assert line == "[" + inner;
    if |inner| > 0 && inner[|inner| - 1] == ']' {
      var name := inner[..|inner| - 1];
      assert line == "[" + name + "]";
      assert name == "Interface" ==> line == "[Interface]";
      assert name == "Peer" ==> line == "[Peer]";
    }
    HeaderNames(line);
  }

  lemma HeaderNames(line: string)
    ensures line == "[Interface]" ==> line[1..] == "Interface]" && line[1..][..9] == "Interface"
    ensures line == "[Peer]" ==> line[1..] == "Peer]" && line[1..][..4] == "Peer"
  {
  }

  /** What a line stands for, if anything. */
  function ItemOf(raw: string): Option<Item> {
    var line := TrimLine(raw);
    if !Lacks(raw, '\r') then None
    else if |line| == 0 || line[0] == '#' then Some(Nothing)
    else if line[0] == '[' then
      match SectionHeader(line)
      case Err(_) => None
      case Ok(name) => Some(Head(name))
    else
      match SplitOnce(line, '=')
      case None => None
      case Some((k, v)) => if HasControl(TrimBlanks(v)) then None else Some(Directive(Field(TrimBlanks(k), TrimBlanks(v))))
  }

  lemma SplitExactly(line: string, k: string, v: string)
    ensures SplitOnce(line, '=') == Some((k, v)) <==> line == k + "=" + v && Lacks(k, '=')
  {
    SplitOnceParts(line, '=');
    if line == k + "=" + v && Lacks(k, '=') {
      SplitOnceAt(k, '=', v);
      assert line == k + ['='] + v;
    }
  }

  lemma ItemExactly(raw: string, item: Item)
    ensures ItemOf(raw) == Some(item) <==> StandsFor(raw, item)
  {
    hide TrimBlanks, HasControl, SectionHeader, SplitOnce, TrimLine, LineSays, LosesSpaces, LosesTabs;
    TrimLineExactly(raw, TrimLine(raw));
    forall m, line | LosesSpaces(raw, m) && LosesTabs(m, line) ensures line == TrimLine(raw) {
      TrimLineExactly(raw, line);
    }
    if Lacks(raw, '\r') {
      LineItem(raw, item);
    }
  }

  lemma LineItem(raw: string, item: Item)
    requires Lacks(raw, '\r')
    ensures ItemOf(raw) == Some(item) <==> LineSays(TrimLine(raw), item)
  {
    hide TrimBlanks, HasControl, SectionHeader, SplitOnce, TrimLine, LosesBlanks;
    var line := TrimLine(raw);
    if |line| > 0 && line[0] == '[' {
      HeaderExactly(line);
    }
    HeadersBegin();
    if item.Directive? {
      DirectiveItem(line, item.field);
    }
  }

  /** The key and value of a directive line. */
  lemma DirectiveItem(line: string, f: Field)
    ensures LineSays(line, Directive(f)) <==>
              && |line| > 0 && line[0] != '#' && line[0] != '[' && SplitOnce(line, '=').Some?
              && var (k, v) := SplitOnce(line, '=').value;
                 f == Field(TrimBlanks(k), TrimBlanks(v)) && !HasControl(TrimBlanks(v))
  {
    hide TrimBlanks, HasControl, SplitOnce, LosesBlanks;
    ControlExactly(f.value);
    if SplitOnce(line, '=').Some? {
      var (k, v) := SplitOnce(line, '=').value;
      SplitExactly(line, k, v);
      TrimBlanksExactly(k, f.key);
      TrimBlanksExactly(v, f.value);
    }
    if k, v :| line == k + "=" + v && Lacks(k, '=') && LosesBlanks(k, f.key) && LosesBlanks(v, f.value) {
      SplitExactly(line, k, v);
    }
  }

  lemma ControlExactly(s: string)
    ensures HasControl(s) <==> exists c :: c in s && Chars.IsControl(c)
  {
    if HasControl(s) {
      var i :| 0 <= i < |s| && Chars.IsControl(s[i]);
      assert s[i] in s;
    }
  }

  lemma HeadersBegin()
    ensures |"[Interface]"| > 0 && "[Interface]"[0] == '[' && |"[Peer]"| > 0 && "[Peer]"[0] == '['
  {
  }

  lemma ReadsItem(raw: string, sections: seq<Section>)
    ensures match ReadLine(raw, sections)
            case Ok(next) => ItemOf(raw).Some? && Grown(sections, ItemOf(raw).value) == Some(next)
            case Err(_) => ItemOf(raw).Some? ==> Grown(sections, ItemOf(raw).value) == None
  {
    hide TrimBlanks, HasControl, SectionHeader, SplitOnce, TrimLine;
    forall f { AddsField(sections, f); }
    hide AddField, Grown;
    GrownHead(sections);
  }

  lemma AddsField(sections: seq<Section>, f: Field)
    ensures Grown(sections, Directive(f)) == if AddField(sections, f).Ok? then Some(AddField(sections, f).value) else None
  {
    if |sections| > 0 {
      var last := sections[|sections| - 1];
      var longer := last.(fields := last.fields + [f]);
      assert sections[|sections| - 1 := longer] == sections[..|sections| - 1] + [longer];
    }
  }

  lemma GrownHead(sections: seq<Section>)
    ensures Grown(sections, Nothing) == Some(sections)
    ensures forall name :: Grown(sections, Head(name)) == Some(sections + [Section(name, [])])
  {
  }

  // -------------------------------------------------------------------
  // Sections
  // -------------------------------------------------------------------

  /** The items that sections are made of, in order. */
  function Flat(sections: seq<Section>): seq<Item> {
    if |sections| == 0 then []
    else [Head(sections[0].name)] + Directives(sections[0].fields) + Flat(sections[1..])
  }

  function Directives(fields: seq<Field>): (items: seq<Item>)
    ensures |items| == |fields| && forall i :: 0 <= i < |fields| ==> items[i] == Directive(fields[i])
  {
    seq(|fields|, i requires 0 <= i < |fields| => Directive(fields[i]))
  }

  /** The items of lines, without those that stand for nothing. */
  function Items(lines: seq<string>): Option<seq<Item>> {
    if |lines| == 0 then Some([])
    else
      match (ItemOf(lines[0]), Items(lines[1..]))
      case (Some(item), Some(rest)) => Some((if item.Nothing? then [] else [item]) + rest)
      case _ => None
  }

  lemma {:induction false} FlatJoins(a: seq<Section>, b: seq<Section>)
    ensures Flat(a + b) == Flat(a) + Flat(b)
  {
    if |a| > 0 {
      assert (a + b)[1..] == a[1..] + b;
      FlatJoins(a[1..], b);
    } else {
      assert a + b == b;
    }
  }

  lemma HeadGrows(sections: seq<Section>, name: SectionName)
    ensures Flat(sections + [Section(name, [])]) == Flat(sections) + [Head(name)]
  {
    FlatJoins(sections, [Section(name, [])]);
    FlatOne(Section(name, []));
    hide Flat;
  }

  lemma GrownLast(front: seq<Section>, last: Section, f: Field)
    ensures Grown(front + [last], Directive(f)) == Some(front + [Section(last.name, last.fields + [f])])
    ensures Grown([], Directive(f)) == None
  {
    assert (front + [last])[..|front|] == front;
  }

  lemma GrowsFlat(sections: seq<Section>, item: Item)
    ensures Grown(sections, item).Some? ==>
              Flat(Grown(sections, item).value) == Flat(sections) + if item.Nothing? then [] else [item]
    ensures Grown(sections, item).None? <==> item.Directive? && |sections| == 0
  {
    hide Flat, Grown;
    GrownHead(sections);
    match item
    case Nothing => assert Flat(sections) + [] == Flat(sections);
    case Head(name) => HeadGrows(sections, name);
    case Directive(f) =>
      if |sections| > 0 {
        var front, last := sections[..|sections| - 1], sections[|sections| - 1];
        assert sections == front + [last];
        GrownLast(front, last, f);
        LastGrowsFlat(front, last, f);
      } else {
        GrownLast([], Section(Interface, []), f);
        assert sections == [];
      }
  }

  lemma LastGrowsFlat(front: seq<Section>, last: Section, f: Field)
    ensures Flat(front + [Section(last.name, last.fields + [f])]) == Flat(front + [last]) + [Directive(f)]
  {
    hide Flat;
    var longer := Section(last.name, last.fields + [f]);
    FlatJoins(front, [last]);
    FlatJoins(front, [longer]);
    FlatOne(last);
    FlatOne(longer);
    assert Directives(longer.fields) == Directives(last.fields) + [Directive(f)];
  }

  lemma FlatOne(s: Section)
    ensures Flat([s]) == [Head(s.name)] + Directives(s.fields)
  {
    assert [s][1..] == [];
  }

  lemma {:induction false} FlatBegins(sections: seq<Section>)
    ensures |Flat(sections)| == 0 <==> |sections| == 0
    ensures |sections| > 0 ==> Flat(sections)[0] == Head(sections[0].name)
  {
  }

  /** Sections are determined by their items. */
  lemma {:induction false} FlatIsInjective(a: seq<Section>, b: seq<Section>)
    requires Flat(a) == Flat(b)
    ensures a == b
  {
    FlatBegins(a);
    FlatBegins(b);
    if |a| > 0 {
      var x, y, f, g := Flat(a[1..]), Flat(b[1..]), a[0].fields, b[0].fields;
      FlatBegins(a[1..]);
      FlatBegins(b[1..]);
      SameRun(f, x, g, y);
      FlatIsInjective(a[1..], b[1..]);
      assert a == [a[0]] + a[1..] && b == [b[0]] + b[1..];
    }
  }

  lemma SameRun(f: seq<Field>, x: seq<Item>, g: seq<Field>, y: seq<Item>)
    requires (|x| > 0 ==> x[0].Head?) && (|y| > 0 ==> y[0].Head?)
    ensures forall a, b :: [Head(a)] + Directives(f) + x == [Head(b)] + Directives(g) + y ==> a == b && f == g && x == y
  {
    forall a, b | [Head(a)] + Directives(f) + x == [Head(b)] + Directives(g) + y ensures a == b && f == g && x == y {
      var s, t := [Head(a)] + Directives(f) + x, [Head(b)] + Directives(g) + y;
      assert s[0] == Head(a) && t[0] == Head(b);
      assert |f| + 1 < |s| ==> s[|f| + 1] == x[0] == t[|f| + 1];
      assert |g| + 1 < |t| ==> t[|g| + 1] == y[0] == s[|g| + 1];
      assert |f| == |g|;
      assert forall i :: 0 <= i < |f| ==> s[i + 1] == Directive(f[i]) && t[i + 1] == Directive(g[i]);
      assert x == s[|f| + 1..] && y == t[|g| + 1..];
    }
  }

  /** Reading lines appends their items; it fails iff a line stands for nothing readable or a directive comes first. */
  lemma {:induction false} LinesExactly(lines: seq<string>, before: seq<Section>)
    ensures ReadLines(lines, before).Ok? ==>
              Items(lines).Some? && Flat(ReadLines(lines, before).value) == Flat(before) + Items(lines).value
    ensures Items(lines).Some? && (|before| > 0 || |Items(lines).value| == 0 || Items(lines).value[0].Head?) ==>
              ReadLines(lines, before).Ok?
    decreases |lines|
  {
    hide ReadLine, ItemOf, Flat, Grown;
    if |lines| > 0 {
      ReadsItem(lines[0], before);
      if ItemOf(lines[0]).Some? {
        var item := ItemOf(lines[0]).value;
        GrowsFlat(before, item);
        if ReadLine(lines[0], before).Ok? {
          var next := ReadLine(lines[0], before).value;
          GrownIsThere(before, item);
          LinesExactly(lines[1..], next);
        }
      }
    }
  }

  lemma GrownIsThere(sections: seq<Section>, item: Item)
    ensures Grown(sections, item).Some? && (item.Head? || |sections| > 0) ==> |Grown(sections, item).value| > 0
    ensures item.Nothing? ==> Grown(sections, item) == Some(sections)
  {
  }

  /** The items that stand for something. */
  function Significant(items: seq<Item>): seq<Item> {
    if |items| == 0 then [] else (if items[0].Nothing? then [] else [items[0]]) + Significant(items[1..])
  }

  ghost predicate StandFor(lines: seq<string>, items: seq<Item>) {
    |items| == |lines| && forall i :: 0 <= i < |lines| ==> StandsFor(lines[i], items[i])
  }

  /** The lines read as these sections: each line stands for an item, and the significant ones are theirs, in order. */
  ghost predicate ReadsAs(lines: seq<string>, sections: seq<Section>) {
    exists items :: StandFor(lines, items) && Significant(items) == Flat(sections)
  }

  lemma {:induction false} ItemsStand(lines: seq<string>) returns (items: seq<Item>)
    requires Items(lines).Some?
    ensures StandFor(lines, items) && Significant(items) == Items(lines).value
  {
    hide ItemOf, StandsFor;
    if |lines| == 0 {
      items := [];
    } else {
      var rest := ItemsStand(lines[1..]);
      items := [ItemOf(lines[0]).value] + rest;
      ItemExactly(lines[0], items[0]);
      assert items[1..] == rest;
      assert forall i :: 0 < i < |lines| ==> lines[i] == lines[1..][i - 1] && items[i] == rest[i - 1];
    }
  }

  lemma {:induction false} StandingItems(lines: seq<string>, items: seq<Item>)
    requires StandFor(lines, items)
    ensures Items(lines) == Some(Significant(items))
  {
    hide ItemOf, StandsFor;
    if |lines| > 0 {
      assert StandsFor(lines[0], items[0]);
      ItemExactly(lines[0], items[0]);
      assert forall i :: 0 < i < |lines| ==> lines[i] == lines[1..][i - 1] && items[i] == items[1..][i - 1];
      StandingItems(lines[1..], items[1..]);
    }
  }

  lemma ReadsAsItems(lines: seq<string>, sections: seq<Section>)
    ensures ReadsAs(lines, sections) <==> Items(lines) == Some(Flat(sections))
  {
    hide Items, StandFor, Significant, Flat;
    if Items(lines).Some? {
      var items := ItemsStand(lines);
    }
    if items :| StandFor(lines, items) && Significant(items) == Flat(sections) {
      StandingItems(lines, items);
    }
  }

  lemma SectionsExactly(lines: seq<string>, sections: seq<Section>)
    ensures ReadLines(lines, []) == Ok(sections) <==> ReadsAs(lines, sections)
  {
    hide ReadsAs, Items;
    LinesExactly(lines, []);
    ReadsAsItems(lines, sections);
    assert Flat([]) == [];
    if ReadsAs(lines, sections) {
      FlatBegins(sections);
      FlatIsInjective(ReadLines(lines, []).value, sections);
    }
    if ReadLines(lines, []) == Ok(sections) {
      assert [] + Items(lines).value == Items(lines).value;
    }
  }

  // -------------------------------------------------------------------
  // Directives
  // -------------------------------------------------------------------

  /** The value of the first directive with this key. */
  function ValueOf(fields: seq<Field>, key: string): Option<string> {
    if |fields| == 0 then None
    else if fields[0].key == key then Some(fields[0].value)
    else ValueOf(fields[1..], key)
  }

  lemma {:induction false} ValueExactly(fields: seq<Field>, key: string)
    ensures ValueOf(fields, key).None? <==> forall i :: 0 <= i < |fields| ==> fields[i].key != key
    ensures forall v :: ValueOf(fields, key) == Some(v) ==> Field(key, v) in fields
  {
    if |fields| > 0 {
      ValueExactly(fields[1..], key);
      assert fields == [fields[0]] + fields[1..];
    }
  }

  /** The directives are among these, each at most once. */
  ghost predicate AreOnce(fields: seq<Field>, allowed: set<string>) {
    && (forall i :: 0 <= i < |fields| ==> fields[i].key in allowed)
    && forall i, k :: 0 <= i < k < |fields| ==> fields[i].key != fields[k].key
  }

  predicate InterfaceValueOk(lib: Library, f: Field) {
    && (f.key == "PrivateKey" ==> IsKey(lib, f.value))
    && (f.key == "Address" ==> ParseNet(f.value).Some? && ParseNet(f.value).value.prefix == 32)
    && (f.key == "ListenPort" ==> ParseU16(f.value).Some? && ParseU16(f.value).value > 0)
    && (f.key == "DNS" ==> lib.parseIp(f.value).Some?)
    && (f.key == "MTU" ==> ParseU16(f.value).Some? && ParseU16(f.value).value >= 576)
  }

  ghost predicate AllValuesOk(lib: Library, fields: seq<Field>) {
    forall i :: 0 <= i < |fields| ==> InterfaceValueOk(lib, fields[i])
  }

  function AddressIn(v: string): Option<Addr> {
    if ParseNet(v).Some? then Some(ParseNet(v).value.addr) else None
  }

  /** What the directives say, over what was known before. */
  function Told(lib: Library, fields: seq<Field>, acc: InterfaceFields): InterfaceFields {
    var key, address, port := ValueOf(fields, "PrivateKey"), ValueOf(fields, "Address"), ValueOf(fields, "ListenPort");
    var dns, mtu := ValueOf(fields, "DNS"), ValueOf(fields, "MTU");
    InterfaceFields(if key.Some? then key else acc.privateKey,
                    if address.Some? then AddressIn(address.value) else acc.address,
                    if port.Some? then ParseU16(port.value) else acc.listenPort,
                    if dns.Some? then lib.parseIp(dns.value) else acc.dns,
                    if mtu.Some? then ParseU16(mtu.value) else acc.mtu)
  }

  lemma ValueStep(fields: seq<Field>, key: string)
    requires |fields| > 0 && forall i :: 0 < i < |fields| ==> fields[i].key != fields[0].key
    ensures ValueOf([fields[0]], key) == if fields[0].key == key then Some(fields[0].value) else None
    ensures ValueOf(fields, key) == if fields[0].key == key then Some(fields[0].value) else ValueOf(fields[1..], key)
    ensures fields[0].key == key ==> ValueOf(fields[1..], key) == None
  {
    assert [fields[0]][1..] == [];
    ValueExactly(fields[1..], key);
  }

  lemma ToldTail(lib: Library, fields: seq<Field>, acc: InterfaceFields)
    requires |fields| > 0 && forall i :: 0 < i < |fields| ==> fields[i].key != fields[0].key
    ensures Told(lib, fields, acc) == Told(lib, fields[1..], Told(lib, [fields[0]], acc))
  {
    hide ValueOf, ParseNet, ParseU16;
    ValueStep(fields, "PrivateKey");
    ValueStep(fields, "Address");
    ValueStep(fields, "ListenPort");
    ValueStep(fields, "DNS");
    ValueStep(fields, "MTU");
  }

  lemma OneTold(lib: Library, acc: InterfaceFields, f: Field)
    requires f.key in INTERFACE_KEYS
    ensures SetInterfaceField(lib, acc, f).Ok? <==> InterfaceValueOk(lib, f)
    ensures SetInterfaceField(lib, acc, f).Ok? ==> SetInterfaceField(lib, acc, f).value == Told(lib, [f], acc)
  {
    hide ValueOf, ParseNet, ParseU16, IsKey;
    ValueStep([f], "PrivateKey");
    ValueStep([f], "Address");
    ValueStep([f], "ListenPort");
    ValueStep([f], "DNS");
    ValueStep([f], "MTU");
  }

  lemma KeyExactly(key: string, allowed: set<string>, forbidden: set<string>, seen: set<string>)
    requires key in allowed ==> key !in forbidden
    ensures CheckKey(key, allowed, forbidden, seen).None? <==> key in allowed && key !in seen
  {
  }

  lemma {:induction false} InterfaceFolds(lib: Library, fields: seq<Field>, seen: set<string>, acc: InterfaceFields)
    ensures ReadInterface(lib, fields, seen, acc).Ok? <==>
              DirectivesOk(fields, INTERFACE_KEYS, seen) && AllValuesOk(lib, fields)
    ensures ReadInterface(lib, fields, seen, acc).Ok? ==>
              ReadInterface(lib, fields, seen, acc).value == Told(lib, fields, acc)
    decreases |fields|
  {
    hide SetInterfaceField, InterfaceValueOk, CheckKey, Told, DirectivesOk, INTERFACE_KEYS, FORBIDDEN_KEYS;
    if |fields| == 0 {
      NoDirectives(INTERFACE_KEYS, seen);
      NothingTold(lib, acc);
    } else {
      var f, rest := fields[0], fields[1..];
      NotForbidden(f.key);
      KeyExactly(f.key, INTERFACE_KEYS, FORBIDDEN_KEYS, seen);
      DirectiveStep(fields, INTERFACE_KEYS, seen);
      if f.key in INTERFACE_KEYS && f.key !in seen {
        OneTold(lib, acc, f);
        assert AllValuesOk(lib, fields) <==> InterfaceValueOk(lib, f) && AllValuesOk(lib, rest) by {
          assert forall i :: 0 < i < |fields| ==> fields[i] == rest[i - 1];
          assert forall i :: 0 <= i < |rest| ==> rest[i] == fields[i + 1];
        }
        if SetInterfaceField(lib, acc, f).Ok? {
          InterfaceFolds(lib, rest, seen + {f.key}, SetInterfaceField(lib, acc, f).value);
          if DirectivesOk(fields, INTERFACE_KEYS, seen) {
            KeysDiffer(fields, INTERFACE_KEYS, seen);
            ToldTail(lib, fields, acc);
          }
        }
      }
    }
  }

  lemma NothingTold(lib: Library, acc: InterfaceFields)
    ensures Told(lib, [], acc) == acc
  {
  }

  lemma DirectiveStep(fields: seq<Field>, allowed: set<string>, seen: set<string>)
    requires |fields| > 0
    ensures DirectivesOk(fields, allowed, seen) <==>
              fields[0].key in allowed && fields[0].key !in seen && DirectivesOk(fields[1..], allowed, seen + {fields[0].key})
  {
    var rest := fields[1..];
    assert forall k :: 0 < k < |fields| ==> fields[k] == rest[k - 1];
    assert forall k :: 0 <= k < |rest| ==> rest[k] == fields[k + 1];
  }

  lemma KeysDiffer(fields: seq<Field>, allowed: set<string>, seen: set<string>)
    requires DirectivesOk(fields, allowed, seen)
    ensures forall i, k :: 0 <= i < k < |fields| ==> fields[i].key != fields[k].key
  {
  }

  // -------------------------------------------------------------------
  // The interface section
  // -------------------------------------------------------------------

  /** The directives of an `[Interface]` section say this: each known directive at most once and no other, the three
      required ones present, every value in order. */
  ghost predicate InterfaceSays(lib: Library, fields: seq<Field>, i: ParsedInterface) {
    var key, address, port := ValueOf(fields, "PrivateKey"), ValueOf(fields, "Address"), ValueOf(fields, "ListenPort");
    var dns, mtu := ValueOf(fields, "DNS"), ValueOf(fields, "MTU");
    && AreOnce(fields, {"PrivateKey", "Address", "ListenPort", "DNS", "MTU"})
    && key == Some(i.privateKey) && IsKey(lib, i.privateKey)
    && address.Some? && ParseNet(address.value) == Some(Net(i.address, 32))
    && port.Some? && ParseU16(port.value) == Some(i.listenPort) && i.listenPort > 0
    && (if dns.None? then i.dns.None? else i.dns.Some? && lib.parseIp(dns.value) == i.dns)
    && (if mtu.None? then i.mtu.None? else i.mtu.Some? && ParseU16(mtu.value) == Some(i.mtu.value) && i.mtu.value >= 576)
  }

  lemma ValueIsOk(lib: Library, fields: seq<Field>, key: string)
    requires AllValuesOk(lib, fields)
    ensures ValueOf(fields, key).Some? ==> InterfaceValueOk(lib, Field(key, ValueOf(fields, key).value))
  {
    hide InterfaceValueOk, ValueOf;
    ValueExactly(fields, key);
    if ValueOf(fields, key).Some? {
      var i :| 0 <= i < |fields| && fields[i] == Field(key, ValueOf(fields, key).value);
    }
  }

  lemma InterfaceValuesOk(lib: Library, fields: seq<Field>)
    requires AreOnce(fields, INTERFACE_KEYS)
    ensures AllValuesOk(lib, fields) <==>
              && OkIfThere(lib, fields, "PrivateKey") && OkIfThere(lib, fields, "Address")
              && OkIfThere(lib, fields, "ListenPort") && OkIfThere(lib, fields, "DNS") && OkIfThere(lib, fields, "MTU")
  {
    hide InterfaceValueOk, ValueOf;
    if AllValuesOk(lib, fields) {
      ValueIsOk(lib, fields, "PrivateKey");
      ValueIsOk(lib, fields, "Address");
      ValueIsOk(lib, fields, "ListenPort");
      ValueIsOk(lib, fields, "DNS");
      ValueIsOk(lib, fields, "MTU");
    }
    forall i | 0 <= i < |fields| && OkIfThere(lib, fields, fields[i].key) ensures InterfaceValueOk(lib, fields[i]) {
      OnlyValue(fields, i);
    }
  }

  predicate OkIfThere(lib: Library, fields: seq<Field>, key: string) {
    ValueOf(fields, key).Some? ==> InterfaceValueOk(lib, Field(key, ValueOf(fields, key).value))
  }

  lemma {:induction false} OnlyValue(fields: seq<Field>, i: nat)
    requires i < |fields| && forall j, k :: 0 <= j < k < |fields| ==> fields[j].key != fields[k].key
    ensures ValueOf(fields, fields[i].key) == Some(fields[i].value)
  {
    if i > 0 {
      OnlyValue(fields[1..], i - 1);
    }
  }

  lemma InterfaceExactly(lib: Library, fields: seq<Field>, i: ParsedInterface)
    ensures InterfaceOf(lib, fields) == Ok(i) <==> InterfaceSays(lib, fields, i)
  {
    InterfaceFolds(lib, fields, {}, NO_INTERFACE_FIELDS);
    assert DirectivesOk(fields, INTERFACE_KEYS, {}) <==> AreOnce(fields, INTERFACE_KEYS);
    assert INTERFACE_KEYS == {"PrivateKey", "Address", "ListenPort", "DNS", "MTU"};
    hide ReadInterface, DirectivesOk, AreOnce, AllValuesOk, INTERFACE_KEYS, ValueOf, ParseNet, ParseU16, IsKey;
    if AreOnce(fields, INTERFACE_KEYS) {
      InterfaceValuesOk(lib, fields);
    }
  }

  // -------------------------------------------------------------------
  // The peer sections
  // -------------------------------------------------------------------

  /** A comma list of canonical networks, none of them the default route. */
  ghost predicate ListsNets(v: string, nets: seq<Net>) {
    var entries := Split(v, ',');
    && |v| > 0 && |nets| == |entries|
    && forall i :: 0 <= i < |nets| ==> SaysNet(entries[i], nets[i])
  }

  ghost predicate SaysNet(entry: string, net: Net) {
    (exists t :: LosesBlanks(entry, t) && ParseNet(t) == Some(net)) && Network(net) == net.addr && net.prefix > 0
  }

  lemma NetExactly(entry: string, net: Net)
    ensures SaysNet(entry, net) <==> ParseNet(TrimBlanks(entry)) == Some(net) && Ipv4.IsCanonical(net) && net.prefix != 0
  {
    hide ParseNet, TrimBlanks, LosesBlanks;
    TrimBlanksExactly(entry, TrimBlanks(entry));
    forall t | LosesBlanks(entry, t) ensures t == TrimBlanks(entry) {
      TrimBlanksExactly(entry, t);
    }
  }

  lemma {:induction false} AllowedExactly(entries: seq<string>, before: seq<Net>, nets: seq<Net>)
    ensures ParseAllowed(entries, before) == Ok(before + nets) <==>
              |nets| == |entries| && forall i :: 0 <= i < |nets| ==> SaysNet(entries[i], nets[i])
    decreases |entries|
  {
    hide ParseNet, TrimBlanks, SaysNet, Network;
    if |entries| == 0 {
      assert before + nets == before <==> nets == [];
    } else if |nets| > 0 {
      NetExactly(entries[0], nets[0]);
      var rest := nets[1..];
      assert before + nets == (before + [nets[0]]) + rest;
      assert forall i :: 0 < i < |nets| ==> nets[i] == rest[i - 1];
      assert forall i :: 0 <= i < |rest| ==> rest[i] == nets[i + 1];
      assert forall i :: 0 < i < |entries| ==> entries[i] == entries[1..][i - 1];
      AllowedExactly(entries[1..], before + [nets[0]], rest);
      AllowedGrows(entries, before);
    } else {
      AllowedGrows(entries, before);
    }
  }

  /** What is read is appended: one network per entry. */
  lemma {:induction false} AllowedGrows(entries: seq<string>, before: seq<Net>)
    ensures ParseAllowed(entries, before).Ok? ==>
              var r := ParseAllowed(entries, before).value;
              && |r| == |before| + |entries| && r[..|before|] == before
              && (|entries| > 0 ==> ParseNet(TrimBlanks(entries[0])) == Some(r[|before|]))
    decreases |entries|
  {
    hide ParseNet, TrimBlanks, Network;
    if |entries| > 0 && ParseNet(TrimBlanks(entries[0])).Some? {
      var net := ParseNet(TrimBlanks(entries[0])).value;
      AllowedGrows(entries[1..], before + [net]);
      assert ParseAllowed(entries, before).Ok? ==>
          ParseAllowed(entries, before).value[..|before|] == ParseAllowed(entries, before).value[..|before| + 1][..|before|];
    }
  }

  lemma NetsExactly(v: string, nets: seq<Net>)
    requires |v| > 0
    ensures ParseAllowed(Split(v, ','), []) == Ok(nets) <==> ListsNets(v, nets)
  {
    AllowedExactly(Split(v, ','), [], nets);
    assert [] + nets == nets;
  }

  predicate PeerValueOk(lib: Library, f: Field) {
    && (f.key == "PublicKey" ==> IsKey(lib, f.value))
    && (f.key == "PresharedKey" ==> IsKey(lib, f.value))
    && (f.key == "AllowedIPs" ==> |f.value| > 0 && ParseAllowed(Split(f.value, ','), []).Ok?)
    && (f.key == "Endpoint" ==> EndpointOk(lib, f.value))
    && (f.key == "PersistentKeepalive" ==> ParseU16(f.value).Some?)
  }

  ghost predicate AllPeerValuesOk(lib: Library, fields: seq<Field>) {
    forall i :: 0 <= i < |fields| ==> PeerValueOk(lib, fields[i])
  }

  function NetsIn(v: string): Option<seq<Net>> {
    match ParseAllowed(Split(v, ','), [])
    case Ok(nets) => Some(nets)
    case Err(_) => None
  }

  function ToldPeer(lib: Library, fields: seq<Field>, acc: PeerFields): PeerFields {
    var key, psk, nets := ValueOf(fields, "PublicKey"), ValueOf(fields, "PresharedKey"), ValueOf(fields, "AllowedIPs");
    var endpoint, keepalive := ValueOf(fields, "Endpoint"), ValueOf(fields, "PersistentKeepalive");
    PeerFields(if key.Some? then key else acc.publicKey,
               if psk.Some? then psk else acc.presharedKey,
               if nets.Some? then NetsIn(nets.value) else acc.allowedIps,
               if endpoint.Some? then endpoint else acc.endpoint,
               if keepalive.Some? then ParseU16(keepalive.value) else acc.keepalive)
  }

  lemma PeerTail(lib: Library, fields: seq<Field>, acc: PeerFields)
    requires |fields| > 0 && forall i :: 0 < i < |fields| ==> fields[i].key != fields[0].key
    ensures ToldPeer(lib, fields, acc) == ToldPeer(lib, fields[1..], ToldPeer(lib, [fields[0]], acc))
  {
    hide ValueOf, NetsIn, ParseU16;
    ValueStep(fields, "PublicKey");
    ValueStep(fields, "PresharedKey");
    ValueStep(fields, "AllowedIPs");
    ValueStep(fields, "Endpoint");
    ValueStep(fields, "PersistentKeepalive");
  }

  lemma OnePeerTold(lib: Library, acc: PeerFields, f: Field)
    requires f.key in PEER_KEYS
    ensures SetPeerField(lib, acc, f).Ok? <==> PeerValueOk(lib, f)
    ensures SetPeerField(lib, acc, f).Ok? ==> SetPeerField(lib, acc, f).value == ToldPeer(lib, [f], acc)
  {
    hide ValueOf, ParseAllowed, Split, ParseU16, IsKey, EndpointOk;
    ValueStep([f], "PublicKey");
    ValueStep([f], "PresharedKey");
    ValueStep([f], "AllowedIPs");
    ValueStep([f], "Endpoint");
    ValueStep([f], "PersistentKeepalive");
  }

  lemma {:induction false} PeerFolds(lib: Library, fields: seq<Field>, seen: set<string>, acc: PeerFields)
    ensures ReadPeer(lib, fields, seen, acc).Ok? <==> DirectivesOk(fields, PEER_KEYS, seen) && AllPeerValuesOk(lib, fields)
    ensures ReadPeer(lib, fields, seen, acc).Ok? ==> ReadPeer(lib, fields, seen, acc).value == ToldPeer(lib, fields, acc)
    decreases |fields|
  {
    hide SetPeerField, PeerValueOk, CheckKey, ToldPeer, DirectivesOk, PEER_KEYS;
    if |fields| == 0 {
      NoDirectives(PEER_KEYS, seen);
      NoPeerTold(lib, acc);
    } else {
      var f, rest := fields[0], fields[1..];
      KeyExactly(f.key, PEER_KEYS, {}, seen);
      DirectiveStep(fields, PEER_KEYS, seen);
      if f.key in PEER_KEYS && f.key !in seen {
        OnePeerTold(lib, acc, f);
        assert AllPeerValuesOk(lib, fields) <==> PeerValueOk(lib, f) && AllPeerValuesOk(lib, rest) by {
          assert forall i :: 0 < i < |fields| ==> fields[i] == rest[i - 1];
          assert forall i :: 0 <= i < |rest| ==> rest[i] == fields[i + 1];
        }
        if SetPeerField(lib, acc, f).Ok? {
          PeerFolds(lib, rest, seen + {f.key}, SetPeerField(lib, acc, f).value);
          if DirectivesOk(fields, PEER_KEYS, seen) {
            KeysDiffer(fields, PEER_KEYS, seen);
            PeerTail(lib, fields, acc);
          }
        }
      }
    }
  }

  lemma NoPeerTold(lib: Library, acc: PeerFields)
    ensures ToldPeer(lib, [], acc) == acc
  {
  }

  /** The directives of a `[Peer]` section say this: each known directive at most once and no other, the three required
      ones present, every value in order. */
  ghost predicate PeerSays(lib: Library, fields: seq<Field>, p: ParsedPeer) {
    var key, psk, nets := ValueOf(fields, "PublicKey"), ValueOf(fields, "PresharedKey"), ValueOf(fields, "AllowedIPs");
    var endpoint, keepalive := ValueOf(fields, "Endpoint"), ValueOf(fields, "PersistentKeepalive");
    && AreOnce(fields, {"PublicKey", "PresharedKey", "AllowedIPs", "Endpoint", "PersistentKeepalive"})
    && key == Some(p.publicKey) && IsKey(lib, p.publicKey)
    && psk == Some(p.presharedKey) && IsKey(lib, p.presharedKey)
    && nets.Some? && ListsNets(nets.value, p.allowedIps)
    && (if endpoint.None? then p.endpoint.None? else p.endpoint == endpoint && EndpointOk(lib, endpoint.value))
    && (if keepalive.None? then p.persistentKeepalive.None?
        else p.persistentKeepalive.Some? && ParseU16(keepalive.value) == Some(p.persistentKeepalive.value))
  }

  predicate PeerOkIfThere(lib: Library, fields: seq<Field>, key: string) {
    ValueOf(fields, key).Some? ==> PeerValueOk(lib, Field(key, ValueOf(fields, key).value))
  }

  lemma PeerValueIsOk(lib: Library, fields: seq<Field>, key: string)
    requires AllPeerValuesOk(lib, fields)
    ensures PeerOkIfThere(lib, fields, key)
  {
    hide PeerValueOk, ValueOf;
    ValueExactly(fields, key);
    if ValueOf(fields, key).Some? {
      var i :| 0 <= i < |fields| && fields[i] == Field(key, ValueOf(fields, key).value);
    }
  }

  lemma PeerValuesOk(lib: Library, fields: seq<Field>)
    requires AreOnce(fields, PEER_KEYS)
    ensures AllPeerValuesOk(lib, fields) <==>
              && PeerOkIfThere(lib, fields, "PublicKey") && PeerOkIfThere(lib, fields, "PresharedKey")
              && PeerOkIfThere(lib, fields, "AllowedIPs") && PeerOkIfThere(lib, fields, "Endpoint")
              && PeerOkIfThere(lib, fields, "PersistentKeepalive")
  {
    hide PeerValueOk, ValueOf;
    if AllPeerValuesOk(lib, fields) {
      PeerValueIsOk(lib, fields, "PublicKey");
      PeerValueIsOk(lib, fields, "PresharedKey");
      PeerValueIsOk(lib, fields, "AllowedIPs");
      PeerValueIsOk(lib, fields, "Endpoint");
      PeerValueIsOk(lib, fields, "PersistentKeepalive");
    }
    forall i | 0 <= i < |fields| && PeerOkIfThere(lib, fields, fields[i].key) ensures PeerValueOk(lib, fields[i]) {
      OnlyValue(fields, i);
    }
  }

  lemma ListExactly(v: string, nets: seq<Net>)
    ensures ListsNets(v, nets) <==> |v| > 0 && NetsIn(v) == Some(nets)
    ensures ListsNets(v, nets) ==> |nets| > 0
  {
    hide ParseAllowed, Split, SaysNet;
    if |v| > 0 {
      NetsExactly(v, nets);
    }
  }

  lemma PeerOfTold(lib: Library, fields: seq<Field>)
    ensures var once := AreOnce(fields, {"PublicKey", "PresharedKey", "AllowedIPs", "Endpoint", "PersistentKeepalive"});
            && (once && AllPeerValuesOk(lib, fields) ==> PeerOf(lib, fields) == FinishPeer(ToldPeer(lib, fields, NO_PEER_FIELDS)))
            && (!once || !AllPeerValuesOk(lib, fields) ==> PeerOf(lib, fields).Err?)
  {
    PeerFolds(lib, fields, {}, NO_PEER_FIELDS);
    assert PEER_KEYS == {"PublicKey", "PresharedKey", "AllowedIPs", "Endpoint", "PersistentKeepalive"};
    assert DirectivesOk(fields, PEER_KEYS, {}) <==> AreOnce(fields, PEER_KEYS);
    hide ReadPeer, DirectivesOk, AreOnce, AllPeerValuesOk, PEER_KEYS, FinishPeer, ToldPeer;
  }

  /** The finished record is `p`: the three required fields are there. */
  lemma FinishedPeer(acc: PeerFields, p: ParsedPeer)
    ensures FinishPeer(acc) == Ok(p) <==>
              && acc.publicKey == Some(p.publicKey) && acc.presharedKey == Some(p.presharedKey)
              && acc.allowedIps == Some(p.allowedIps) && |p.allowedIps| > 0
              && acc.endpoint == p.endpoint && acc.keepalive == p.persistentKeepalive
  {
  }

  lemma NetsThere(lib: Library, fields: seq<Field>, nets: seq<Net>)
    ensures var v := ValueOf(fields, "AllowedIPs");
            v.Some? && ListsNets(v.value, nets) <==>
              v.Some? && PeerOkIfThere(lib, fields, "AllowedIPs") && NetsIn(v.value) == Some(nets) && |nets| > 0
  {
    hide ValueOf, ListsNets, ParseAllowed, Split;
    var v := ValueOf(fields, "AllowedIPs");
    if v.Some? {
      ListExactly(v.value, nets);
      assert PeerOkIfThere(lib, fields, "AllowedIPs") <==> |v.value| > 0 && NetsIn(v.value).Some?;
    }
  }

  lemma PeerExactly(lib: Library, fields: seq<Field>, p: ParsedPeer)
    ensures PeerOf(lib, fields) == Ok(p) <==> PeerSays(lib, fields, p)
  {
    PeerOfTold(lib, fields);
    FinishedPeer(ToldPeer(lib, fields, NO_PEER_FIELDS), p);
    NetsThere(lib, fields, p.allowedIps);
    if AreOnce(fields, PEER_KEYS) {
      PeerValuesOk(lib, fields);
    }
    assert PEER_KEYS == {"PublicKey", "PresharedKey", "AllowedIPs", "Endpoint", "PersistentKeepalive"};
    SimpleValues(lib, fields);
    hide PeerOf, AreOnce, AllPeerValuesOk, PEER_KEYS, ValueOf, NetsIn, ParseU16, IsKey, EndpointOk, ListsNets, PeerOkIfThere,
      FinishPeer;
  }

  lemma SimpleValues(lib: Library, fields: seq<Field>)
    ensures var key, psk := ValueOf(fields, "PublicKey"), ValueOf(fields, "PresharedKey");
            && (PeerOkIfThere(lib, fields, "PublicKey") <==> key.None? || IsKey(lib, key.value))
            && (PeerOkIfThere(lib, fields, "PresharedKey") <==> psk.None? || IsKey(lib, psk.value))
    ensures var endpoint, keepalive := ValueOf(fields, "Endpoint"), ValueOf(fields, "PersistentKeepalive");
            && (PeerOkIfThere(lib, fields, "Endpoint") <==> endpoint.None? || EndpointOk(lib, endpoint.value))
            && (PeerOkIfThere(lib, fields, "PersistentKeepalive") <==> keepalive.None? || ParseU16(keepalive.value).Some?)
  {
    hide ValueOf, ParseAllowed, Split, ParseU16, IsKey, EndpointOk;
  }

  // -------------------------------------------------------------------
  // The whole text
  // -------------------------------------------------------------------

  /** From here on there are only peers. */
  ghost predicate PeersSay(lib: Library, sections: seq<Section>, peers: seq<ParsedPeer>) {
    && |peers| == |sections|
    && forall k :: 0 <= k < |sections| ==> sections[k].name.Peer? && PeerSays(lib, sections[k].fields, peers[k])
  }

  /** One interface section, at `at`, and peers before and after it, in order. */
  ghost predicate SectionsSay(lib: Library, sections: seq<Section>, at: nat, c: ParsedConfig) {
    && at < |sections| && sections[at].name.Interface? && InterfaceSays(lib, sections[at].fields, c.interface)
    && |c.peers| == |sections| - 1
    && PeersSay(lib, sections[..at], c.peers[..at]) && PeersSay(lib, sections[at + 1..], c.peers[at..])
  }

  lemma PeersStep(lib: Library, sections: seq<Section>, peers: seq<ParsedPeer>)
    requires |sections| > 0
    ensures PeersSay(lib, sections, peers) <==>
              |peers| > 0 && sections[0].name.Peer? && PeerSays(lib, sections[0].fields, peers[0])
              && PeersSay(lib, sections[1..], peers[1..])
  {
    hide PeerSays;
    var s := sections[1..];
    if |peers| > 0 {
      var p := peers[1..];
      assert forall k :: 0 < k < |sections| ==> sections[k] == s[k - 1];
      assert forall k :: 0 < k < |peers| ==> peers[k] == p[k - 1];
      assert forall k :: 0 <= k < |s| ==> s[k] == sections[k + 1];
      assert forall k :: 0 <= k < |p| ==> p[k] == peers[k + 1];
    }
  }

  lemma {:induction false} PeersBuild(lib: Library, sections: seq<Section>, i: ParsedInterface, before: seq<ParsedPeer>,
                                      peers: seq<ParsedPeer>)
    ensures Build(lib, sections, Some(i), before) == Ok(ParsedConfig(i, before + peers)) <==>
              PeersSay(lib, sections, peers)
    decreases |sections|
  {
    hide PeerOf, InterfaceOf, PeerSays;
    if |sections| == 0 {
      assert before + peers == before <==> peers == [];
    } else {
      PeersStep(lib, sections, peers);
      BuildGrows(lib, sections, Some(i), before);
      if |peers| > 0 {
        PeerExactly(lib, sections[0].fields, peers[0]);
        assert before + peers == (before + [peers[0]]) + peers[1..];
        PeersBuild(lib, sections[1..], i, before + [peers[0]], peers[1..]);
      }
    }
  }

  lemma {:induction false} BuildGrows(lib: Library, sections: seq<Section>, i: Option<ParsedInterface>,
                                      before: seq<ParsedPeer>)
    ensures Build(lib, sections, i, before).Ok? ==>
              var c := Build(lib, sections, i, before).value;
              && before <= c.peers
              && (i.Some? ==> c.interface == i.value && |c.peers| == |before| + |sections|)
              && (i.None? ==> |c.peers| + 1 == |before| + |sections|)
              && (|sections| > 0 && sections[0].name.Peer? ==>
                    |before| < |c.peers| && PeerOf(lib, sections[0].fields) == Ok(c.peers[|before|]))
    decreases |sections|
  {
    hide PeerOf, InterfaceOf;
    if |sections| > 0 {
      if sections[0].name.Interface? {
        if i.None? && InterfaceOf(lib, sections[0].fields).Ok? {
          BuildGrows(lib, sections[1..], Some(InterfaceOf(lib, sections[0].fields).value), before);
        }
      } else if PeerOf(lib, sections[0].fields).Ok? {
        BuildGrows(lib, sections[1..], i, before + [PeerOf(lib, sections[0].fields).value]);
      }
    }
  }

  /** A leading peer section can be taken off. */
  lemma SayShift(lib: Library, sections: seq<Section>, at: nat, i: ParsedInterface, peers: seq<ParsedPeer>)
    requires 0 < at <= |sections|
    ensures SectionsSay(lib, sections, at, ParsedConfig(i, peers)) <==>
              && |peers| > 0 && sections[0].name.Peer? && PeerSays(lib, sections[0].fields, peers[0])
              && SectionsSay(lib, sections[1..], at - 1, ParsedConfig(i, peers[1..]))
  {
    hide PeerSays, InterfaceSays, PeersSay;
    if at < |sections| && |peers| == |sections| - 1 {
      var s, p := sections[1..], peers[1..];
      assert sections[..at][1..] == s[..at - 1] && peers[..at][1..] == p[..at - 1];
      assert sections[at + 1..] == s[at..] && peers[at..] == p[at - 1..];
      PeersStep(lib, sections[..at], peers[..at]);
    }
  }

  lemma SayFirst(lib: Library, sections: seq<Section>, i: ParsedInterface, peers: seq<ParsedPeer>)
    requires |sections| > 0
    ensures SectionsSay(lib, sections, 0, ParsedConfig(i, peers)) <==>
              sections[0].name.Interface? && InterfaceSays(lib, sections[0].fields, i) && PeersSay(lib, sections[1..], peers)
  {
    hide PeerSays, InterfaceSays;
    assert sections[..0] == [] && peers[..0] == [] && peers[0..] == peers;
  }

  ghost predicate SectionsSaySomewhere(lib: Library, sections: seq<Section>, c: ParsedConfig) {
    exists at :: 0 <= at <= |sections| && SectionsSay(lib, sections, at, c)
  }

  lemma {:induction false} BuildExactly(lib: Library, sections: seq<Section>, before: seq<ParsedPeer>, i: ParsedInterface,
                                        peers: seq<ParsedPeer>)
    ensures Build(lib, sections, None, before) == Ok(ParsedConfig(i, before + peers)) <==>
              SectionsSaySomewhere(lib, sections, ParsedConfig(i, peers))
    decreases |sections|
  {
    hide PeerOf, InterfaceOf, PeerSays, InterfaceSays, PeersSay, SectionsSay;
    if |sections| == 0 {
      NoneSay(lib, ParsedConfig(i, peers));
    } else {
      SayFirst(lib, sections, i, peers);
      forall at | 0 < at <= |sections|
        ensures SectionsSay(lib, sections, at, ParsedConfig(i, peers)) <==>
                  && |peers| > 0 && sections[0].name.Peer? && PeerSays(lib, sections[0].fields, peers[0])
                  && SectionsSay(lib, sections[1..], at - 1, ParsedConfig(i, peers[1..]))
      {
        SayShift(lib, sections, at, i, peers);
      }
      BuildGrows(lib, sections, None, before);
      if sections[0].name.Interface? {
        InterfaceExactly(lib, sections[0].fields, i);
        BuildAfter(lib, sections, before, i, peers);
        assert SectionsSaySomewhere(lib, sections, ParsedConfig(i, peers)) <==>
                 SectionsSay(lib, sections, 0, ParsedConfig(i, peers));
      } else if |peers| > 0 {
        PeerExactly(lib, sections[0].fields, peers[0]);
        assert before + peers == (before + [peers[0]]) + peers[1..];
        assert (before + peers)[|before|] == peers[0];
        BuildExactly(lib, sections[1..], before + [peers[0]], i, peers[1..]);
        ShiftSomewhere(lib, sections, i, peers);
      } else {
        assert before + peers == before;
        assert !SectionsSay(lib, sections, 0, ParsedConfig(i, peers));
      }
    }
  }

  lemma NoneSay(lib: Library, c: ParsedConfig)
    ensures !SectionsSaySomewhere(lib, [], c)
  {
  }

  lemma ShiftSomewhere(lib: Library, sections: seq<Section>, i: ParsedInterface, peers: seq<ParsedPeer>)
    requires |sections| > 0 && sections[0].name.Peer? && |peers| > 0
    ensures SectionsSaySomewhere(lib, sections, ParsedConfig(i, peers)) <==>
              PeerSays(lib, sections[0].fields, peers[0])
              && SectionsSaySomewhere(lib, sections[1..], ParsedConfig(i, peers[1..]))
  {
    hide PeerSays, SectionsSay;
    SayFirst(lib, sections, i, peers);
    if at :| 0 <= at <= |sections| && SectionsSay(lib, sections, at, ParsedConfig(i, peers)) {
      SayShift(lib, sections, at, i, peers);
    }
    if at :| 0 <= at <= |sections[1..]| && SectionsSay(lib, sections[1..], at, ParsedConfig(i, peers[1..])) {
      SayShift(lib, sections, at + 1, i, peers);
    }
  }

  /** After the interface section only peers may come. */
  lemma BuildAfter(lib: Library, sections: seq<Section>, before: seq<ParsedPeer>, i: ParsedInterface, peers: seq<ParsedPeer>)
    requires |sections| > 0 && sections[0].name.Interface?
    ensures Build(lib, sections, None, before) == Ok(ParsedConfig(i, before + peers)) <==>
              InterfaceOf(lib, sections[0].fields) == Ok(i) && PeersSay(lib, sections[1..], peers)
  {
    hide PeerOf, InterfaceOf, PeerSays, PeersSay;
    if InterfaceOf(lib, sections[0].fields).Ok? {
      var first := InterfaceOf(lib, sections[0].fields).value;
      BuildGrows(lib, sections[1..], Some(first), before);
      PeersBuild(lib, sections[1..], first, before, peers);
    }
  }

  /** The text says `c`: small enough, free of NUL, every line in order, one interface section among the peer sections,
      every directive known and at most once, every value in order, and no ambiguity between peers. */
  ghost predicate Says(lib: Library, text: string, c: ParsedConfig) {
    && Utf8Len(text) <= 1048576 && Lacks(text, '\0')
    && (exists sections :: ReadsAs(Split(text, '\n'), sections) && SectionsSaySomewhere(lib, sections, c))
    && Unambiguous(lib, c)
  }

  lemma ConfigExactly(lib: Library, sections: seq<Section>, c: ParsedConfig)
    ensures Build(lib, sections, None, []) == Ok(c) <==> SectionsSaySomewhere(lib, sections, c)
  {
    BuildExactly(lib, sections, [], c.interface, c.peers);
    assert [] + c.peers == c.peers;
  }

  lemma CheckedExactly(lib: Library, text: string, sections: seq<Section>, c: ParsedConfig)
    requires ReadLines(Split(text, '\n'), []) == Ok(sections) && Build(lib, sections, None, []) == Ok(c)
    ensures (CheckConfig(lib, c) == Ok(c) <==> Unambiguous(lib, c)) && (CheckConfig(lib, c).Ok? ==> CheckConfig(lib, c) == Ok(c))
  {
    LinesTrim(Split(text, '\n'), []);
    NoSections();
    hide ReadLines, Split, CheckConfig, Build, InterfaceOk, PeerOk, Unambiguous, TrimmedFields;
    SectionsAccepted(lib, sections, None, []);
    ValidInterface(lib, c);
    CheckExact(lib, c);
  }

  lemma ValidInterface(lib: Library, c: ParsedConfig)
    requires InterfaceOk(lib, c.interface)
    ensures lib.validKey(c.interface.privateKey)
  {
  }

  /** The strict reader accepts exactly the texts that say some configuration, and reads them as just that. */
  lemma ParseExactly(lib: Library, text: string, c: ParsedConfig)
    ensures Parse(lib, text) == Ok(c) <==> Says(lib, text, c)
  {
    hide ReadLines, ReadsAs, Build, CheckConfig, Unambiguous, Split, Utf8Len, SectionsSaySomewhere;
    forall sections ensures ReadLines(Split(text, '\n'), []) == Ok(sections) <==> ReadsAs(Split(text, '\n'), sections) {
      SectionsExactly(Split(text, '\n'), sections);
    }
    if ReadLines(Split(text, '\n'), []).Ok? {
      var sections := ReadLines(Split(text, '\n'), []).value;
      ConfigExactly(lib, sections, c);
      if Build(lib, sections, None, []).Ok? {
        CheckedExactly(lib, text, sections, Build(lib, sections, None, []).value);
      }
    }
  }
}
