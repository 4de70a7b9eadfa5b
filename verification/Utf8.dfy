/** UTF-8 validation against the definition in section 4 of RFC 3629. */
module Utf8 {
  import opened Concatenation

  type Byte = x: nat | x < 0x100
  type Scalar = x: nat | x < 0xd800 || 0xe000 <= x < 0x11_0000

  // ----- the definition: one scalar value to one to four octets

  function Tail(x: nat): Byte { 0x80 + x % 0x40 }

  function EncodeOne(c: Scalar): (r: seq<Byte>)
    ensures 1 <= |r| <= 4
  {
    if c < 0x80 then [c]
    else if c < 0x800 then [0xc0 + c / 0x40, Tail(c)]
    else if c < 0x1_0000 then [0xe0 + c / 0x1000, Tail(c / 0x40), Tail(c)]
    else [0xf0 + c / 0x4_0000, Tail(c / 0x1000), Tail(c / 0x40), Tail(c)]
  }

  function Encode(cs: seq<Scalar>): seq<Byte> {
    Concat(EncodeOne, cs)
  }

  // ----- what the validators compute for one sequence

  predicate IsTail(b: Byte) { 0x80 <= b < 0xc0 }

  /** Octets of a sequence by its first octet; zero if no sequence starts so. */
  function LengthOf(first: Byte): (n: nat)
    ensures n <= 4
  {
    if first < 0x80 then 1
    else if 0xc2 <= first <= 0xdf then 2
    else if 0xe0 <= first <= 0xef then 3
    else if 0xf0 <= first <= 0xf4 then 4
    else 0
  }

  function LeadBits(first: Byte): nat {
    if first < 0x80 then first
    else if first <= 0xdf then first % 0x20
    else if first <= 0xef then first % 0x10
    else first % 0x8
  }

  /** The number a lead and its continuation octets spell, six bits at a time. */
  function Spelled(lead: nat, tail: seq<Byte>): nat {
    if tail == [] then lead else Spelled(lead, tail[..|tail| - 1]) * 0x40 + tail[|tail| - 1] % 0x40
  }

  predicate InRange(length: nat, c: nat) {
    && (length == 3 ==> c >= 0x800) && (length == 4 ==> c >= 0x1_0000)
    && c < 0x11_0000 && !(0xd800 <= c < 0xe000)
  }

  predicate AllTails(tail: seq<Byte>) {
    forall i :: 0 <= i < |tail| ==> IsTail(tail[i])
  }

  /** A well-formed sequence starts at the front of `w`. */
  predicate StartsSequence(w: seq<Byte>) {
    && w != [] && 0 < LengthOf(w[0]) <= |w|
    && AllTails(w[1..LengthOf(w[0])])
    && InRange(LengthOf(w[0]), Spelled(LeadBits(w[0]), w[1..LengthOf(w[0])]))
  }

  function First(w: seq<Byte>): Scalar
    requires StartsSequence(w)
  {
    var n := LengthOf(w[0]);
    Spelled(LeadBits(w[0]), w[1..n])
  }

  // ----- one sequence, both ways

  lemma SpelledOne(lead: nat, a: Byte)
    ensures Spelled(lead, [a]) == lead * 0x40 + a % 0x40
  {
    assert [a][..0] == [];
  }

  lemma SpelledTwo(lead: nat, a: Byte, b: Byte)
    ensures Spelled(lead, [a, b]) == (lead * 0x40 + a % 0x40) * 0x40 + b % 0x40
  {
    assert [a, b][..1] == [a];
    SpelledOne(lead, a);
  }

  lemma SpelledThree(lead: nat, a: Byte, b: Byte, c: Byte)
    ensures Spelled(lead, [a, b, c]) == ((lead * 0x40 + a % 0x40) * 0x40 + b % 0x40) * 0x40 + c % 0x40
  {
    assert [a, b, c][..2] == [a, b];
    SpelledTwo(lead, a, b);
  }

  lemma TailBits(x: nat)
    ensures IsTail(Tail(x)) && Tail(x) % 0x40 == x % 0x40
  {
  }

  lemma SixBits(x: nat)
    ensures x / 0x40 * 0x40 + x % 0x40 == x
    ensures x / 0x1000 == x / 0x40 / 0x40 && x / 0x4_0000 == x / 0x40 / 0x40 / 0x40
  {
  }

  lemma Leads(k: nat)
    ensures 2 <= k < 0x20 ==> LengthOf(0xc0 + k) == 2 && LeadBits(0xc0 + k) == k
    ensures k < 0x10 ==> LengthOf(0xe0 + k) == 3 && LeadBits(0xe0 + k) == k
    ensures k <= 4 ==> LengthOf(0xf0 + k) == 4 && LeadBits(0xf0 + k) == k
  {
  }

  /** A lead octet and its continuation octets start a sequence, whatever follows. */
  lemma Starts(first: Byte, tail: seq<Byte>, rest: seq<Byte>, c: nat)
    requires LengthOf(first) == 1 + |tail| && AllTails(tail) && Spelled(LeadBits(first), tail) == c && InRange(1 + |tail|, c)
    ensures StartsSequence([first] + tail + rest) && First([first] + tail + rest) == c
  {
    var w := [first] + tail + rest;
    assert w[1..1 + |tail|] == tail;
  }

  lemma SpellsTwo(c: Scalar)
    requires 0x80 <= c < 0x800
    ensures Spelled(c / 0x40, [Tail(c)]) == c && AllTails([Tail(c)])
  {
    SixBits(c);
    TailBits(c);
    SpelledOne(c / 0x40, Tail(c));
  }

  lemma SpellsThree(c: Scalar)
    requires 0x800 <= c < 0x1_0000
    ensures Spelled(c / 0x1000, [Tail(c / 0x40), Tail(c)]) == c && AllTails([Tail(c / 0x40), Tail(c)])
  {
    SixBits(c);
    SixBits(c / 0x40);
    TailBits(c);
    TailBits(c / 0x40);
    SpelledTwo(c / 0x1000, Tail(c / 0x40), Tail(c));
  }

  lemma SpellsFour(c: Scalar)
    requires 0x1_0000 <= c
    ensures Spelled(c / 0x4_0000, [Tail(c / 0x1000), Tail(c / 0x40), Tail(c)]) == c
    ensures AllTails([Tail(c / 0x1000), Tail(c / 0x40), Tail(c)])
  {
    SixBits(c);
    SixBits(c / 0x40);
    SixBits(c / 0x40 / 0x40);
    TailBits(c);
    TailBits(c / 0x40);
    TailBits(c / 0x1000);
    SpelledThree(c / 0x4_0000, Tail(c / 0x1000), Tail(c / 0x40), Tail(c));
  }

  /** The lead octet and the continuation octets of a scalar value. */
  lemma EncodedParts(c: Scalar) returns (first: Byte, tail: seq<Byte>)
    ensures EncodeOne(c) == [first] + tail && LengthOf(first) == 1 + |tail|
    ensures AllTails(tail) && Spelled(LeadBits(first), tail) == c && InRange(1 + |tail|, c)
  {
    first, tail := EncodeOne(c)[0], EncodeOne(c)[1..];
    if c < 0x80 {
    } else if c < 0x800 {
      SpellsTwo(c);
      Leads(c / 0x40);
      assert tail == [Tail(c)];
    } else if c < 0x1_0000 {
      SpellsThree(c);
      Leads(c / 0x1000);
      assert tail == [Tail(c / 0x40), Tail(c)];
    } else {
      SpellsFour(c);
      Leads(c / 0x4_0000);
      assert tail == [Tail(c / 0x1000), Tail(c / 0x40), Tail(c)];
    }
  }

  /** Reading what was written for one scalar value. */
  lemma FirstOfEncoded(c: Scalar, rest: seq<Byte>)
    ensures var w := EncodeOne(c) + rest;
            StartsSequence(w) && First(w) == c && LengthOf(w[0]) == |EncodeOne(c)|
  {
    var first, tail := EncodedParts(c);
    Starts(first, tail, rest, c);
  }

  lemma TailOctets(w: seq<Byte>, i: nat)
    requires StartsSequence(w) && 1 <= i < LengthOf(w[0])
    ensures IsTail(w[i])
  {
    assert w[1..LengthOf(w[0])][i - 1] == w[i];
  }

  lemma EncodedThree(w: seq<Byte>)
    requires StartsSequence(w) && LengthOf(w[0]) == 3
    ensures EncodeOne(First(w)) == [w[0], w[1], w[2]]
  {
    TailOctets(w, 1);
    TailOctets(w, 2);
    assert w[1..3] == [w[1], w[2]];
    SpelledTwo(LeadBits(w[0]), w[1], w[2]);
    ThreeBack(LeadBits(w[0]), w[1], w[2], First(w));
    assert 0xe0 + LeadBits(w[0]) == w[0];
  }

  lemma EncodedFour(w: seq<Byte>)
    requires StartsSequence(w) && LengthOf(w[0]) == 4
    ensures EncodeOne(First(w)) == [w[0], w[1], w[2], w[3]]
  {
    TailOctets(w, 1);
    TailOctets(w, 2);
    TailOctets(w, 3);
    assert w[1..4] == [w[1], w[2], w[3]];
    SpelledThree(LeadBits(w[0]), w[1], w[2], w[3]);
    FourBack(LeadBits(w[0]), w[1], w[2], w[3], First(w));
    assert 0xf0 + LeadBits(w[0]) == w[0];
  }

  lemma EncodedShort(w: seq<Byte>)
    requires StartsSequence(w) && LengthOf(w[0]) <= 2
    ensures EncodeOne(First(w)) == w[..LengthOf(w[0])]
  {
    if LengthOf(w[0]) == 1 {
      assert w[1..1] == [];
    } else {
      TailOctets(w, 1);
      assert w[1..2] == [w[1]];
      TwoBack(w[0], w[1], First(w));
    }
  }

  /** Writing what was read. */
  lemma EncodedFirst(w: seq<Byte>)
    requires StartsSequence(w)
    ensures EncodeOne(First(w)) == w[..LengthOf(w[0])]
  {
    if LengthOf(w[0]) <= 2 { EncodedShort(w); }
    else if LengthOf(w[0]) == 3 { EncodedThree(w); }
    else { EncodedFour(w); }
  }

  lemma TwoBack(first: Byte, a: Byte, c: nat)
    requires LengthOf(first) == 2 && IsTail(a) && c == Spelled(LeadBits(first), [a])
    ensures 0x80 <= c < 0x800 && 0xc0 + c / 0x40 == first && Tail(c) == a
  {
    SpelledOne(LeadBits(first), a);
  }

  lemma ThreeBack(lead: nat, a: Byte, b: Byte, c: nat)
    requires IsTail(a) && IsTail(b) && c == (lead * 0x40 + a % 0x40) * 0x40 + b % 0x40
    ensures c / 0x1000 == lead && Tail(c / 0x40) == a && Tail(c) == b
  {
    assert c / 0x40 == lead * 0x40 + a % 0x40;
  }

  lemma FourBack(lead: nat, a: Byte, b: Byte, d: Byte, c: nat)
    requires IsTail(a) && IsTail(b) && IsTail(d)
    requires c == ((lead * 0x40 + a % 0x40) * 0x40 + b % 0x40) * 0x40 + d % 0x40
    ensures c / 0x4_0000 == lead && Tail(c / 0x1000) == a && Tail(c / 0x40) == b && Tail(c) == d
  {
    var x := (lead * 0x40 + a % 0x40) * 0x40 + b % 0x40;
    assert c / 0x40 == x;
    ThreeBack(lead, a, b, x);
    SixBits(c);
  }

  // ----- whole strings

  /** The string is one well-formed sequence after another. */
  predicate Valid(w: seq<Byte>) {
    w == [] || (StartsSequence(w) && Valid(w[LengthOf(w[0])..]))
  }

  function Decode(w: seq<Byte>): seq<Scalar>
    requires Valid(w)
  {
    if w == [] then [] else [First(w)] + Decode(w[LengthOf(w[0])..])
  }

  lemma {:induction false} EncodedIsValid(cs: seq<Scalar>)
    ensures Valid(Encode(cs)) && Decode(Encode(cs)) == cs
  {
    if cs != [] {
      var e, rest := EncodeOne(cs[0]), Encode(cs[1..]);
      EncodedIsValid(cs[1..]);
      FirstOfEncoded(cs[0], rest);
      assert (e + rest)[|e|..] == rest;
      assert cs == [cs[0]] + cs[1..];
    }
  }

  lemma Rebuilt<T>(put: T -> seq<Byte>, x: T, xs: seq<T>, w: seq<Byte>, n: nat)
    requires n <= |w| && put(x) == w[..n] && Concat(put, xs) == w[n..]
    ensures Concat(put, [x] + xs) == w
  {
    assert ([x] + xs)[1..] == xs;
    assert w == w[..n] + w[n..];
  }

  lemma {:induction false} ValidIsEncoded(w: seq<Byte>)
    requires Valid(w)
    ensures Encode(Decode(w)) == w
  {
    if w != [] {
      var n := LengthOf(w[0]);
      ValidIsEncoded(w[n..]);
      EncodedFirst(w);
      Rebuilt(EncodeOne, First(w), Decode(w[n..]), w, n);
    }
  }

  /** Accepted exactly when the string encodes some scalar values, and then only those. */
  lemma ValidIffEncodes(w: seq<Byte>)
    ensures Valid(w) <==> exists cs: seq<Scalar> :: Encode(cs) == w
    ensures forall a: seq<Scalar>, b: seq<Scalar> :: Encode(a) == w && Encode(b) == w ==> a == b
  {
    if Valid(w) { ValidIsEncoded(w); }
    forall cs: seq<Scalar> | Encode(cs) == w ensures Valid(w) && Decode(w) == cs { EncodedIsValid(cs); }
  }

  // ----- the two validators

  /** Reads the continuation octets, six bits at a time. */
  method ReadTail(tail: seq<Byte>, lead: nat) returns (ok: bool, code: nat)
    ensures ok <==> AllTails(tail)
    ensures ok ==> code == Spelled(lead, tail)
  {
    code := lead;
    for i := 0 to |tail|
      invariant forall k :: 0 <= k < i ==> IsTail(tail[k])
      invariant code == Spelled(lead, tail[..i])
    {
      if !IsTail(tail[i]) { return false, code; }
      assert tail[..i + 1][..i] == tail[..i];
      code := code * 0x40 + tail[i] % 0x40;
    }
    assert tail[..|tail|] == tail;
    ok := true;
  }

  /** The argument validator: the whole string at once. */
  method Validate(w: seq<Byte>) returns (ok: bool)
    ensures ok <==> Valid(w)
  {
    var index := 0;
    assert w[0..] == w;
    while index < |w|
      invariant index <= |w| && (Valid(w[index..]) <==> Valid(w))
    {
      ghost var rest := w[index..];
      var first := w[index];
      assert rest[0] == first;
      if first <= 0x7f {
        Slices(w, index, 1);
        assert rest[1..1] == [];
        index := index + 1;
        continue;
      }
      var n := LengthOf(first);
      if n == 0 || n - 1 > |w| - index - 1 { return false; }
      Slices(w, index, n);
      var tailOk, code := ReadTail(w[index + 1..index + n], LeadBits(first));
      if !tailOk || !InRange(n, code) { return false; }
      index := index + n;
    }
    ok := true;
  }

  lemma Slices(w: seq<Byte>, i: nat, n: nat)
    requires 1 <= n && i + n <= |w|
    ensures w[i..][1..n] == w[i + 1..i + n] && w[i..][n..] == w[i + n..]
  {
  }

  /** The query scanner's check of one sequence. */
  method SequenceLength(w: seq<Byte>) returns (ok: bool, length: nat)
    ensures ok <==> StartsSequence(w)
    ensures ok ==> length == LengthOf(w[0])
  {
    if |w| == 0 { return false, 0; }
    length := LengthOf(w[0]);
    if length == 0 || |w| < length { return false, 0; }
    if length == 1 {
      assert w[1..1] == [];
      return true, 1;
    }
    var code;
    ok, code := ReadTail(w[1..length], LeadBits(w[0]));
    ok := ok && InRange(length, code);
  }

  /** Stepping with the scanner's check accepts the same strings as the argument validator. */
  method ScanAll(w: seq<Byte>) returns (ok: bool)
    ensures ok <==> Valid(w)
  {
    var index := 0;
    assert w[0..] == w;
    while index < |w|
      invariant index <= |w| && (Valid(w[index..]) <==> Valid(w))
    {
      ghost var rest := w[index..];
      var length;
      ok, length := SequenceLength(w[index..]);
      if !ok { return; }
      assert rest[length..] == w[index + length..];
      index := index + length;
    }
    ok := true;
  }
}
