/** What the model takes from libraries: key encoding and derivation, and generic IP address text. */
module Lib {
  import opened Outcomes
  import opened Text
  import Chars

  /** `validKey`: canonical Base64 of 32 bytes, not all zero. `publicOf`: the public key of a private key.
      `parseIp`: the canonical text of an IP address. `isIpv6`: text that parses as an IPv6 address. */
  datatype Functions = Functions(
    validKey: string -> bool,
    publicOf: string -> string,
    parseIp: string -> Option<string>,
    isIpv6: string -> bool)

  /** Keys and addresses are printable text without blanks, public keys are keys, and printing an address
      and parsing it again gives the same address. */
  ghost predicate Lawful(f: Functions) {
    && (forall k :: f.validKey(k) ==> Plain(k) && f.validKey(f.publicOf(k)))
    && (forall v :: f.parseIp(v).Some? ==> Plain(f.parseIp(v).value))
    && (forall v :: f.parseIp(v).Some? ==> f.parseIp(f.parseIp(v).value) == f.parseIp(v))
  }

  type Library = f: Functions | Lawful(f)
    ghost witness Functions(k => k == "k", k => "k", v => if v == "::1" then Some("::1") else None, v => v == "::1")

  /** The key text as decoded and encoded again: trailing blanks do not count. */
  function Canonical(v: string): string {
    TrimEnd(v, c => Chars.IsWhitespace(c))
  }

  predicate IsKey(lib: Library, v: string) {
    lib.validKey(Canonical(v))
  }

  lemma KeyText(lib: Library, k: string)
    requires lib.validKey(k)
    ensures Plain(k) && Canonical(k) == k && IsKey(lib, k)
    ensures IsKey(lib, lib.publicOf(k)) && lib.validKey(lib.publicOf(k))
  {
    assert Plain(k);
  }
}
