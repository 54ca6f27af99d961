/**
 The parameters digest of an operation: the length-prefixed preimage of its triple and canonical
 arguments. SHA-256 is a function parameter; only its injectivity is ever assumed.
 */
module Digest {
  import opened Prelude
  import Canonical

  datatype Operation = Operation(namespace: string, name: string, version: int)

  /** Bytes of a code point in UTF-8, the encoding the lengths count. */
  function Utf8Length(c: char): (n: nat)
    ensures 1 <= n <= 4
  {
    if c < 0x80 as char then 1 else if c < 0x800 as char then 2 else if c as int < 0x10000 then 3 else 4
  }

  /** The bytes of a code point (RFC 3629, section 3). */
  function Utf8(c: char): seq<int> {
    var n := c as int;
    var m := n / 0x40;
    var k := m / 0x40;
    if n < 0x80 then [n]
    else if n < 0x800 then [0xC0 + m, 0x80 + n % 0x40]
    else if n < 0x10000 then [0xE0 + k, 0x80 + m % 0x40, 0x80 + n % 0x40]
    else [0xF0 + k / 0x40, 0x80 + k % 0x40, 0x80 + m % 0x40, 0x80 + n % 0x40]
  }

  /** What bytes say: the first announces how many, the others carry six bits each. */
  function FromUtf8(b: seq<int>): int {
    if |b| == 1 then b[0]
    else if |b| == 2 then (b[0] - 0xC0) * 0x40 + (b[1] - 0x80)
    else if |b| == 3 then ((b[0] - 0xE0) * 0x40 + (b[1] - 0x80)) * 0x40 + (b[2] - 0x80)
    else if |b| == 4 then (((b[0] - 0xF0) * 0x40 + (b[1] - 0x80)) * 0x40 + (b[2] - 0x80)) * 0x40 + (b[3] - 0x80)
    else -1
  }

  predicate Announced(b: seq<int>) {
    match |b|
    case 1 => 0 <= b[0] < 0x80
    case 2 => 0xC0 <= b[0] < 0xE0
    case 3 => 0xE0 <= b[0] < 0xF0
    case 4 => 0xF0 <= b[0] < 0xF8
    case _ => false
  }

  /** The length that is counted is the encoding's. */
  lemma Utf8Exactly(c: char)
    ensures |Utf8(c)| == Utf8Length(c) && FromUtf8(Utf8(c)) == c as int && Announced(Utf8(c))
    ensures forall i :: 0 < i < |Utf8(c)| ==> 0x80 <= Utf8(c)[i] < 0xC0
  {
    var n := c as int;
    SixBits(n);
    SixBits(n / 0x40);
    SixBits(n / 0x40 / 0x40);
  }

  lemma SixBits(n: int)
    requires n >= 0
    ensures n == n / 0x40 * 0x40 + n % 0x40 && 0 <= n % 0x40 < 0x40
  { }

  function ByteLength(s: string): nat { if s == "" then 0 else Utf8Length(s[0]) + ByteLength(s[1..]) }

  /** One hashed field: its byte length, a colon, and the field itself. */
  function Part(s: string): string { NatText(ByteLength(s)) + ":" + s }

  function Preimage(op: Operation, rawArgs: string): string {
    Part(op.namespace) + (Part(op.name) + (Part(IntText(op.version)) + Part(Canonical.CanonicalParams(rawArgs))))
  }

  /** Digest under a hash from text to its hexadecimal digest. */
  function DigestOf(hash: string -> string, op: Operation, rawArgs: string): string {
    "sha256:" + hash(Preimage(op, rawArgs))
  }

  ghost predicate Injective(hash: string -> string) { forall x, y :: hash(x) == hash(y) ==> x == y }

  // ---- Boundaries are unambiguous ----

  lemma {:induction false} ByteLengthConcat(a: string, b: string)
    ensures ByteLength(a + b) == ByteLength(a) + ByteLength(b)
    ensures b != "" ==> ByteLength(b) > 0
  {
    if a == "" {
      assert a + b == b;
    } else {
      ByteLengthConcat(a[1..], b);
      assert (a + b)[1..] == a[1..] + b;
    }
  }

  /** Two prefixes of one text with the same byte length are the same prefix. */
  lemma SameLengthPrefix(a: string, x: string, b: string, y: string)
    requires a + x == b + y && ByteLength(a) == ByteLength(b)
    ensures a == b && x == y
  {
    var s := a + x;
    if |a| <= |b| {
      assert b == s[..|b|] && a == s[..|a|] && b == a + s[|a|..|b|];
      ByteLengthConcat(a, s[|a|..|b|]);
    } else {
      assert b == s[..|b|] && a == s[..|a|] && a == b + s[|b|..|a|];
      ByteLengthConcat(b, s[|b|..|a|]);
    }
    assert x == s[|a|..] && y == s[|b|..];
  }

  /** The digits before the first colon decide the field's length. */
  lemma DigitsBeforeColon(d: string, x: string, e: string, y: string)
    requires AllDigits(d) && AllDigits(e) && d + ":" + x == e + ":" + y
    ensures d == e && x == y
  {
    var s, t := d + ":" + x, e + ":" + y;
    assert s[|d|] == ':' && t[|e|] == ':';
    assert forall i :: 0 <= i < |d| ==> s[i] == d[i] && IsDigit(d[i]);
    assert forall i :: 0 <= i < |e| ==> t[i] == e[i] && IsDigit(e[i]);
    assert |d| == |e|;
    assert d == s[..|d|] && e == t[..|e|] && x == s[|d| + 1..] && y == t[|e| + 1..];
  }

  lemma PartInjective(a: string, x: string, b: string, y: string)
    requires Part(a) + x == Part(b) + y
    ensures a == b && x == y
  {
    var d, e := NatText(ByteLength(a)), NatText(ByteLength(b));
    assert Part(a) + x == d + ":" + (a + x);
    assert Part(b) + y == e + ":" + (b + y);
    DigitsBeforeColon(d, a + x, e, b + y);
    NatRoundTrip(ByteLength(a));
    NatRoundTrip(ByteLength(b));
    SameLengthPrefix(a, x, b, y);
  }

  /** Preimages coincide exactly when namespace, name, version and canonical arguments do. */
  lemma PreimageExact(op1: Operation, args1: string, op2: Operation, args2: string)
    ensures Preimage(op1, args1) == Preimage(op2, args2) <==>
            op1 == op2 && Canonical.CanonicalParams(args1) == Canonical.CanonicalParams(args2)
  {
    if Preimage(op1, args1) == Preimage(op2, args2) {
      var c1, c2 := Canonical.CanonicalParams(args1), Canonical.CanonicalParams(args2);
      var v1, v2 := Part(IntText(op1.version)) + Part(c1), Part(IntText(op2.version)) + Part(c2);
      PartInjective(op1.namespace, Part(op1.name) + v1, op2.namespace, Part(op2.name) + v2);
      PartInjective(op1.name, v1, op2.name, v2);
      PartInjective(IntText(op1.version), Part(c1), IntText(op2.version), Part(c2));
      PartInjective(c1, "", c2, "");
      IntTextInjective(op1.version, op2.version);
    }
  }

  /** Arguments that are JSON of the same value, or the same text where neither is JSON. */
  ghost predicate SameArguments(a: string, b: string) {
    var x, y := Canonical.Decode(a), Canonical.Decode(b);
    if x.Some? && y.Some? then Canonical.Same(x.value, y.value) else x.None? && y.None? && a == b
  }

  /** Two calls share a digest exactly when they name the same operation and their arguments are the same. */
  lemma DigestExact(hash: string -> string, op1: Operation, args1: string, op2: Operation, args2: string)
    requires Injective(hash)
    ensures DigestOf(hash, op1, args1) == DigestOf(hash, op2, args2) <==> op1 == op2 && SameArguments(args1, args2)
  {
    PreimageExact(op1, args1, op2, args2);
    Canonical.CanonicalAgreesExactly(args1, args2);
    var h1, h2 := hash(Preimage(op1, args1)), hash(Preimage(op2, args2));
    assert ("sha256:" + h1)[7..] == h1 && ("sha256:" + h2)[7..] == h2;
  }

  /** Digest: writes the four parts to the hasher one after the other; what it returns names the call. */
  method WriteDigest(hash: string -> string, op: Operation, rawArgs: string) returns (digest: string)
    ensures digest == DigestOf(hash, op, rawArgs) && "sha256:" <= digest
    ensures Injective(hash) ==> forall other, args ::
              digest == DigestOf(hash, other, args) <==> op == other && SameArguments(rawArgs, args)
  {
    hide SameArguments, Injective, Part, Preimage;
    var written := Part(op.namespace);
    written := written + Part(op.name);
    written := written + Part(IntText(op.version));
    written := written + Part(Canonical.CanonicalParams(rawArgs));
    WrittenIs(op, rawArgs);
    digest := "sha256:" + hash(written);
    if Injective(hash) {
      forall other, args ensures DigestOf(hash, op, rawArgs) == DigestOf(hash, other, args) <==>
                                 op == other && SameArguments(rawArgs, args) {
        DigestExact(hash, op, rawArgs, other, args);
      }
    }
  }

  lemma WrittenIs(op: Operation, rawArgs: string)
    ensures Part(op.namespace) + Part(op.name) + Part(IntText(op.version)) + Part(Canonical.CanonicalParams(rawArgs)) ==
            Preimage(op, rawArgs)
  { }
}
