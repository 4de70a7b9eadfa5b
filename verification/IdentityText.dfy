/** The text normal forms a connection identity is built from: trimmed and lower-cased values,
    lists of them, and port lists in plain decimal. */
module IdentityText {
  import opened Options
  import opened Ascii
  import Splitting
  import Concatenation

  const LIMIT := 4096
  const UINT32_MAX: nat := 0xffff_ffff
  type Uint32 = x: nat | x <= UINT32_MAX

  // ----- decimal numbers

  predicate IsDigit(c: char) { '0' <= c <= '9' }

  predicate Digits(s: string) { forall i :: 0 <= i < |s| ==> IsDigit(s[i]) }

  function Digit(n: nat): (c: char)
    requires n < 10
    ensures IsDigit(c) && DigitValue(c) == n
  {
    '0' + n as char
  }

  function DigitValue(c: char): nat
    requires IsDigit(c)
  {
    (c - '0') as nat
  }

  function Value(s: string): nat
    requires Digits(s)
  {
    if s == [] then 0 else 10 * Value(s[..|s| - 1]) + DigitValue(s[|s| - 1])
  }

  function Decimal(n: nat): (s: string)
    ensures s != "" && Digits(s)
  {
    if n < 10 then [Digit(n)] else Decimal(n / 10) + [Digit(n % 10)]
  }

  lemma {:induction false} ValueDecimal(n: nat)
    ensures Value(Decimal(n)) == n
  {
    if n >= 10 {
      ValueDecimal(n / 10);
      assert Decimal(n)[..|Decimal(n)| - 1] == Decimal(n / 10);
    } else {
      assert Decimal(n)[..0] == "";
    }
  }

  lemma {:induction false} ValueGrows(s: string, n: nat)
    requires Digits(s) && n <= |s|
    ensures Digits(s[..n]) && Value(s[..n]) <= Value(s)
  {
    if n < |s| {
      ValueGrows(s[..|s| - 1], n);
      assert s[..|s| - 1][..n] == s[..n];
    } else {
      assert s[..n] == s;
    }
  }

  /** What a port item stands for; an empty one is the default port. */
  function Port(s: string): (p: Option<nat>)
    ensures p.Some? ==> 1 <= p.value <= 65535
  {
    if s == "" then Some(5432)
    else if Digits(s) && 1 <= Value(s) <= 65535 then Some(Value(s))
    else None
  }

  /** Printing a port and reading it back. */
  lemma PortDecimal(p: nat)
    requires 1 <= p <= 65535
    ensures Port(Decimal(p)) == Some(p)
  {
    ValueDecimal(p);
  }

  /** Reads a port with 32-bit arithmetic that refuses to overflow. */
  method ParsePort(s: string) returns (port: Option<nat>)
    ensures port == Port(s)
  {
    if |s| == 0 { return Some(5432); }
    var parsed := 0;
    for i := 0 to |s|
      invariant Digits(s[..i]) && parsed == Value(s[..i]) <= UINT32_MAX
    {
      if !IsDigit(s[i]) { return None; }
      assert s[..i + 1] == s[..i] + [s[i]] && s[..i + 1][..i] == s[..i];
      var digit := DigitValue(s[i]);
      if parsed > (UINT32_MAX - digit) / 10 {
        if Digits(s) { ValueGrows(s, i + 1); }
        return None;
      }
      parsed := parsed * 10 + digit;
    }
    assert s[..|s|] == s;
    port := if parsed == 0 || parsed > 65535 then None else Some(parsed);
  }

  function Reverse(s: string): (r: string)
    ensures |r| == |s| && forall i :: 0 <= i < |s| ==> r[i] == s[|s| - 1 - i]
  {
    if s == "" then "" else [s[|s| - 1]] + Reverse(s[..|s| - 1])
  }

  function Pow10(n: nat): nat {
    if n == 0 then 1 else 10 * Pow10(n - 1)
  }

  lemma TenDigits(value: nat)
    requires value <= UINT32_MAX
    ensures value / 10 < Pow10(9) && |Decimal(value)| <= 10
  {
    assert Pow10(3) == 1000;
    assert Pow10(6) == 1000 * Pow10(3);
    assert Pow10(9) == 1000 * Pow10(6);
    DecimalLength(value, 10);
  }

  lemma {:induction false} DecimalLength(n: nat, digits: nat)
    requires digits > 0 && n < Pow10(digits)
    ensures |Decimal(n)| <= digits
  {
    if n >= 10 {
      assert digits > 1;
      DecimalLength(n / 10, digits - 1);
    }
  }

  /** The digits still to come in front of those written. */
  function Leading(rest: nat): string {
    if rest == 0 then "" else Decimal(rest)
  }

  lemma LeadingStep(rest: nat, tail: string, longer: string)
    requires longer == tail + [Digit(rest % 10)]
    ensures rest != 0 ==> Leading(rest / 10) + Reverse(longer) == Leading(rest) + Reverse(tail)
    ensures tail == "" ==> Leading(rest / 10) + Reverse(longer) == Decimal(rest)
  {
    ReverseNext(tail, Digit(rest % 10));
    LeadingDigit(rest);
    Concatenation.Assoc(Leading(rest / 10), [Digit(rest % 10)], Reverse(tail));
    if tail == "" { assert Reverse(tail) == "" && Decimal(rest) + "" == Decimal(rest); }
  }

  lemma ReverseNext(tail: string, c: char)
    ensures Reverse(tail + [c]) == [c] + Reverse(tail)
  {
    assert (tail + [c])[..|tail|] == tail;
  }

  lemma LeadingDigit(rest: nat)
    ensures Decimal(rest) == Leading(rest / 10) + [Digit(rest % 10)]
  {
  }

  /** Writes a 32-bit number: digits from the lowest up, then turned round. */
  method WriteDecimal(value: nat) returns (s: string)
    requires value <= UINT32_MAX
    ensures s == Decimal(value)
  {
    var reversed := new char[10];
    var count: nat, rest: nat := 1, value / 10;
    reversed[0] := Digit(value % 10);
    LeadingStep(value, "", reversed[..1]);
    TenDigits(value);
    while rest != 0
      invariant 1 <= count <= 10 && rest < Pow10(10 - count)
      invariant Leading(rest) + Reverse(reversed[..count]) == Decimal(value)
      decreases rest
    {
      ghost var tail := reversed[..count];
      reversed[count] := Digit(rest % 10);
      assert reversed[..count + 1] == tail + [Digit(rest % 10)];
      LeadingStep(rest, tail, reversed[..count + 1]);
      count, rest := count + 1, rest / 10;
    }
    s := TurnRound(reversed, count);
  }

  method TurnRound(reversed: array<char>, count: nat) returns (s: string)
    requires count <= reversed.Length
    ensures s == Reverse(reversed[..count])
  {
    s := "";
    for i := 0 to count
      invariant |s| == i && forall k :: 0 <= k < i ==> s[k] == reversed[count - 1 - k]
    {
      s := s + [reversed[count - i - 1]];
    }
    assert s == Reverse(reversed[..count]);
  }

  // ----- trimming

  predicate IsBlank(c: char) { c == ' ' || c == '\t' }
  predicate IsComma(c: char) { c == ',' }

  function Trim(s: string): (r: string)
    ensures |r| <= |s|
  {
    if s == "" then ""
    else if IsBlank(s[0]) then Trim(s[1..])
    else if IsBlank(s[|s| - 1]) then Trim(s[..|s| - 1])
    else s
  }

  predicate Trimmed(s: string) {
    s != "" ==> !IsBlank(s[0]) && !IsBlank(s[|s| - 1])
  }

  lemma {:induction false} TrimTrims(s: string)
    ensures Trimmed(Trim(s)) && (Trimmed(s) ==> Trim(s) == s)
  {
    if s != "" {
      if IsBlank(s[0]) { TrimTrims(s[1..]); } else if IsBlank(s[|s| - 1]) { TrimTrims(s[..|s| - 1]); }
    }
  }

  /** Finds the trimmed middle of `s[from..to]`. */
  method TrimRange(s: string, from: nat, to: nat) returns (begin: nat, end: nat)
    requires from <= to <= |s|
    ensures from <= begin <= end <= to && s[begin..end] == Trim(s[from..to])
  {
    begin, end := from, to;
    while begin < end && IsBlank(s[begin])
      invariant from <= begin <= end == to && Trim(s[begin..end]) == Trim(s[from..to])
    {
      assert s[begin..end][1..] == s[begin + 1..end];
      begin := begin + 1;
    }
    while end > begin && IsBlank(s[end - 1])
      invariant from <= begin <= end <= to && Trim(s[begin..end]) == Trim(s[from..to])
      invariant begin < end ==> !IsBlank(s[begin])
    {
      assert s[begin..end][..end - begin - 1] == s[begin..end - 1];
      end := end - 1;
    }
  }

  // ----- port lists

  function PortsOf(items: seq<string>): (r: Option<seq<nat>>)
    ensures r.Some? ==> |r.value| == |items| && forall i :: 0 <= i < |items| ==> Port(Trim(items[i])) == Some(r.value[i])
  {
    if items == [] then Some([])
    else
      var head, tail := Port(Trim(items[0])), PortsOf(items[1..]);
      if head.Some? && tail.Some? then Some([head.value] + tail.value) else None
  }

  /** The port numbers a list denotes, or nothing. */
  function Ports(s: string): Option<seq<nat>> {
    PortsOf(Splitting.Split(s, IsComma))
  }

  function Decimals(ports: seq<nat>): (r: seq<string>)
    ensures |r| == |ports| && forall i :: 0 <= i < |r| ==> r[i] == Decimal(ports[i])
  {
    seq(|ports|, i requires 0 <= i < |ports| => Decimal(ports[i]))
  }

  function Printed(ports: seq<nat>): string {
    Splitting.Join(Decimals(ports), ',')
  }

  /** The normal form of a port list, if it is one and fits. */
  function NormalizedPorts(s: string): Option<string> {
    if Ports(s).Some? && |Printed(Ports(s).value)| <= LIMIT then Some(Printed(Ports(s).value)) else None
  }

  lemma {:induction false} PortsOfDecimals(ports: seq<nat>)
    requires forall i :: 0 <= i < |ports| ==> 1 <= ports[i] <= 65535
    ensures PortsOf(Decimals(ports)) == Some(ports)
  {
    if ports != [] {
      var rest := ports[1..];
      PortsOfDecimals(rest);
      assert Decimals(ports)[1..] == Decimals(rest);
      TrimTrims(Decimal(ports[0]));
      PortDecimal(ports[0]);
      assert ports == [ports[0]] + rest;
    }
  }

  /** A printed list denotes the numbers it was printed from. */
  lemma PortsPrinted(ports: seq<nat>)
    requires ports != [] && forall i :: 0 <= i < |ports| ==> 1 <= ports[i] <= 65535
    ensures Ports(Printed(ports)) == Some(ports)
  {
    var items := Decimals(ports);
    forall i | 0 <= i < |items| ensures Splitting.Free(items[i], IsComma) {
      assert items[i] == Decimal(ports[i]);
    }
    Splitting.SplitJoin(items, ',', IsComma);
    PortsOfDecimals(ports);
  }

  /** Two accepted lists normalise alike exactly when they denote the same port numbers. */
  lemma PortsAlike(a: string, b: string)
    requires NormalizedPorts(a).Some? && NormalizedPorts(b).Some?
    ensures NormalizedPorts(a) == NormalizedPorts(b) <==> Ports(a) == Ports(b)
  {
    PortsPrinted(Ports(a).value);
    PortsPrinted(Ports(b).value);
  }

  /** The normal form is its own normal form. */
  lemma PortsIdempotent(s: string)
    requires NormalizedPorts(s).Some?
    ensures NormalizedPorts(NormalizedPorts(s).value) == NormalizedPorts(s)
  {
    PortsPrinted(Ports(s).value);
  }

  // ----- texts

  function Lowered(s: string): (r: string)
    ensures |r| == |s| && forall i :: 0 <= i < |s| ==> r[i] == Lower(s[i])
  {
    seq(|s|, i requires 0 <= i < |s| => Lower(s[i]))
  }

  predicate Printable(s: string) {
    forall i :: 0 <= i < |s| ==> s[i] >= ' ' && s[i] != '\U{7F}'
  }

  function NormalizedText(s: string, lower: bool): (r: Option<string>)
    ensures r.Some? ==> |r.value| <= |s| && |r.value| <= LIMIT
  {
    var t := Trim(s);
    if |t| > LIMIT || !Printable(t) then None else Some(if lower then Lowered(t) else t)
  }

  lemma TextIdempotent(s: string, lower: bool)
    requires NormalizedText(s, lower).Some?
    ensures NormalizedText(NormalizedText(s, lower).value, lower) == NormalizedText(s, lower)
  {
    TrimTrims(s);
    var t := NormalizedText(s, lower).value;
    assert Trimmed(t);
    TrimTrims(t);
    assert Lowered(Lowered(Trim(s))) == Lowered(Trim(s));
  }

  /** Trims, checks and copies one value. */
  method CopyNormalized(s: string, from: nat, to: nat, lower: bool) returns (r: Option<string>)
    requires from <= to <= |s|
    ensures r == NormalizedText(s[from..to], lower)
  {
    var begin, end := TrimRange(s, from, to);
    ghost var t := Trim(s[from..to]);
    if end - begin > LIMIT { return None; }
    var output := "";
    for i := begin to end
      invariant |output| == i - begin && Printable(s[begin..i])
      invariant forall k :: 0 <= k < i - begin ==> output[k] == if lower then Lower(t[k]) else t[k]
    {
      assert s[i] == t[i - begin];
      if s[i] < ' ' || s[i] == '\U{7F}' { return None; }
      assert s[begin..i + 1] == s[begin..i] + [s[i]];
      output := output + [if lower then Lower(s[i]) else s[i]];
    }
    assert output == if lower then Lowered(t) else t;
    r := Some(output);
  }

  // ----- lists of items

  /** Host lists lower-case their items unless they are socket paths; port lists print numbers. */
  datatype Kind = PortItems | TextItems(lower: bool)

  function Item(kind: Kind, piece: string): Option<string> {
    var t := Trim(piece);
    if kind.PortItems? then (if Port(t).Some? then Some(Decimal(Port(t).value)) else None)
    else NormalizedText(piece, kind.lower && t != "" && t[0] != '/' && t[0] != '\\')
  }

  function Items(kind: Kind, pieces: seq<string>): (r: Option<seq<string>>)
    ensures r.Some? ==> |r.value| == |pieces|
  {
    if pieces == [] then Some([])
    else
      var head, tail := Item(kind, pieces[0]), Items(kind, pieces[1..]);
      if head.Some? && tail.Some? then Some([head.value] + tail.value) else None
  }

  function NormalizedList(kind: Kind, s: string): Option<string> {
    var items := Items(kind, Splitting.Split(s, IsComma));
    if items.Some? && |Splitting.Join(items.value, ',')| <= LIMIT then Some(Splitting.Join(items.value, ',')) else None
  }

  lemma {:induction false} PortItemsPrint(pieces: seq<string>)
    ensures Items(PortItems, pieces).Some? <==> PortsOf(pieces).Some?
    ensures PortsOf(pieces).Some? ==> Items(PortItems, pieces).value == Decimals(PortsOf(pieces).value)
  {
    if pieces != [] {
      PortItemsPrint(pieces[1..]);
      if PortsOf(pieces).Some? {
        var tail := PortsOf(pieces[1..]).value;
        assert Decimals([PortsOf(pieces).value[0]] + tail) == [Decimal(PortsOf(pieces).value[0])] + Decimals(tail);
      }
    }
  }

  /** The list scanner with port items yields the printed port list. */
  lemma PortListIs(s: string)
    ensures NormalizedList(PortItems, s) == NormalizedPorts(s)
  {
    PortItemsPrint(Splitting.Split(s, IsComma));
  }

  /** Items already written, then those still to be read. */
  function After(done: seq<string>, rest: Option<seq<string>>): Option<seq<string>> {
    if rest.Some? then Some(done + rest.value) else None
  }

  lemma {:induction false} JoinGrows(done: seq<string>, more: seq<string>)
    ensures |Splitting.Join(done, ',')| <= |Splitting.Join(done + more, ',')|
    decreases |more|
  {
    if more == [] {
      assert done + more == done;
    } else {
      JoinGrows(done + [more[0]], more[1..]);
      assert done + [more[0]] + more[1..] == done + more;
      if done != [] { Splitting.JoinLast(done, more[0], ','); }
    }
  }

  method AppendItem(output: array<char>, written: nat, first: bool, item: string) returns (ok: bool, written': nat)
    requires output.Length == LIMIT + 1 && written <= LIMIT
    modifies output
    ensures ok <==> written + |item| + (if first then 0 else 1) <= LIMIT
    ensures ok ==> written' <= LIMIT && output[..written'] == old(output[..written]) + (if first then "" else ",") + item
  {
    if written + |item| + (if first then 0 else 1) >= output.Length { return false, written; }
    written' := written;
    if !first {
      output[written] := ',';
      written' := written + 1;
    }
    ghost var before := output[..written'];
    assert before == old(output[..written]) + if first then "" else ",";
    for i := 0 to |item|
      invariant output[..written' + i] == before + item[..i]
    {
      output[written' + i] := item[i];
      assert item[..i + 1] == item[..i] + [item[i]];
    }
    assert item[..|item|] == item;
    return true, written' + |item|;
  }

  method NormalizeItem(kind: Kind, s: string, from: nat, to: nat) returns (r: Option<string>)
    requires from <= to <= |s|
    ensures r == Item(kind, s[from..to])
  {
    var begin, end := TrimRange(s, from, to);
    if kind.PortItems? {
      var port := ParsePort(s[begin..end]);
      if !port.Some? { return None; }
      var text := WriteDecimal(port.value);
      r := Some(text);
    } else {
      r := CopyNormalized(s, from, to, kind.lower && begin != end && s[begin] != '/' && s[begin] != '\\');
    }
  }

  method FindComma(s: string, from: nat) returns (end: nat)
    requires from <= |s|
    ensures from <= end <= |s| && Splitting.Free(s[from..end], IsComma) && (end < |s| ==> IsComma(s[end]))
  {
    end := from;
    while end < |s| && s[end] != ','
      invariant from <= end <= |s| && Splitting.Free(s[from..end], IsComma)
    {
      assert s[from..end + 1] == s[from..end] + [s[end]];
      end := end + 1;
    }
  }

  lemma ItemsStep(kind: Kind, s: string, input: nat, end: nat, done: seq<string>)
    requires input <= end <= |s| && Splitting.Free(s[input..end], IsComma) && (end < |s| ==> IsComma(s[end]))
    ensures var item := Item(kind, s[input..end]);
            var all := After(done, Items(kind, Splitting.Split(s[input..], IsComma)));
            && (item.None? ==> all.None?)
            && (item.Some? && end == |s| ==> all == Some(done + [item.value]))
            && (item.Some? && end < |s| ==>
                  all == After(done + [item.value], Items(kind, Splitting.Split(s[end + 1..], IsComma))))
  {
    Splitting.SplitStep(s, input, end, IsComma);
    AfterStep(kind, s[input..end], if end < |s| then Splitting.Split(s[end + 1..], IsComma) else [], done);
  }

  lemma AfterStep(kind: Kind, piece: string, rest: seq<string>, done: seq<string>)
    ensures Item(kind, piece).None? ==> After(done, Items(kind, [piece] + rest)).None?
    ensures Item(kind, piece).Some? ==>
      After(done, Items(kind, [piece] + rest)) == After(done + [Item(kind, piece).value], Items(kind, rest))
    ensures Item(kind, piece).Some? && rest == [] ==>
      After(done, Items(kind, [piece] + rest)) == Some(done + [Item(kind, piece).value])
  {
    assert ([piece] + rest)[1..] == rest;
    var item, tail := Item(kind, piece), Items(kind, rest);
    if item.Some? && tail.Some? {
      assert done + ([item.value] + tail.value) == done + [item.value] + tail.value;
      assert tail.value == [] ==> done + [item.value] + tail.value == done + [item.value];
    }
  }

  /** Once too long, always too long. */
  lemma TooLong(done: seq<string>, rest: Option<seq<string>>)
    requires |Splitting.Join(done, ',')| > LIMIT
    ensures var all := After(done, rest); all.Some? ==> |Splitting.Join(all.value, ',')| > LIMIT
  {
    if rest.Some? { JoinGrows(done, rest.value); }
  }

  lemma JoinNext(done: seq<string>, item: string)
    ensures Splitting.Join(done + [item], ',') == Splitting.Join(done, ',') + (if done == [] then "" else ",") + item
  {
    if done != [] { Splitting.JoinLast(done, item, ','); } else { assert done + [item] == [item]; }
  }

  function Rest(kind: Kind, s: string, input: nat): Option<seq<string>>
    requires input <= |s|
  {
    Items(kind, Splitting.Split(s[input..], IsComma))
  }

  ghost predicate Refused(all: Option<seq<string>>) {
    all.None? || |Splitting.Join(all.value, ',')| > LIMIT
  }

  /** One pass of the scan: finds an item, normalises it and writes it. */
  method TakeItem(kind: Kind, s: string, input: nat, output: array<char>, written: nat, first: bool, ghost done: seq<string>)
    returns (ok: bool, written': nat, end: nat, ghost item: string)
    requires input <= |s| && output.Length == LIMIT + 1 && written <= LIMIT
    requires output[..written] == Splitting.Join(done, ',') && (first <==> done == [])
    modifies output
    ensures input <= end <= |s|
    ensures !ok ==> Refused(After(done, Rest(kind, s, input)))
    ensures ok ==> written' <= LIMIT && output[..written'] == Splitting.Join(done + [item], ',')
    ensures ok && end == |s| ==> After(done, Rest(kind, s, input)) == Some(done + [item])
    ensures ok && end < |s| ==> After(done, Rest(kind, s, input)) == After(done + [item], Rest(kind, s, end + 1))
  {
    end := FindComma(s, input);
    ItemsStep(kind, s, input, end, done);
    var text := NormalizeItem(kind, s, input, end);
    if !text.Some? { return false, written, end, ""; }
    item := text.value;
    JoinNext(done, item);
    ok, written' := AppendItem(output, written, first, text.value);
    if !ok {
      assert done + [item] + [] == done + [item];
      TooLong(done + [item], if end < |s| then Rest(kind, s, end + 1) else Some([]));
    }
  }

  /** Scans a list item by item, writing the normal form in place. */
  method NormalizeList(kind: Kind, s: string, output: array<char>) returns (ok: bool, length: nat)
    requires output.Length == LIMIT + 1
    modifies output
    ensures ok <==> NormalizedList(kind, s).Some?
    ensures ok ==> length <= LIMIT && output[..length] == NormalizedList(kind, s).value
  {
    ghost var all, done: seq<string> := Items(kind, Splitting.Split(s, IsComma)), [];
    var input, first := 0, true;
    length := 0;
    assert s[0..] == s;
    assert all.Some? ==> [] + all.value == all.value;
    while true
      invariant input <= |s| && (first <==> done == []) && length <= LIMIT
      invariant output[..length] == Splitting.Join(done, ',')
      invariant After(done, Rest(kind, s, input)) == all
      decreases |s| - input
    {
      var end;
      ghost var item;
      ok, length, end, item := TakeItem(kind, s, input, output, length, first, done);
      if !ok { return false, 0; }
      done := done + [item];
      first := false;
      if end == |s| {
        assert |Splitting.Join(done, ',')| == length;
        return true, length;
      }
      input := end + 1;
    }
  }
}
