/** SQL text as a stream of tokens, and an independent reader of such text: quoted identifiers
    with doubled quotes, numbered placeholders, and single characters for everything else. */
module SqlText {
  import opened Options
  import opened Concatenation
  import opened IdentityText

  datatype Token = Text(text: string) | Name(name: string) | Parameter(number: nat)

  // ----- writing

  function Quoted(name: string): (r: string)
    ensures |r| >= |name|
  {
    if name == "" then ""
    else (if name[0] == '"' then ['"', '"'] else [name[0]]) + Quoted(name[1..])
  }

  function Write(t: Token): string {
    match t
    case Text(text) => text
    case Name(name) => ['"'] + (Quoted(name) + ['"'])
    case Parameter(n) => ['$'] + Decimal(n)
  }

  function Render(tokens: seq<Token>): string {
    Concat(Write, tokens)
  }

  lemma RenderAppend(a: seq<Token>, b: seq<Token>)
    ensures Render(a + b) == Render(a) + Render(b)
  {
    ConcatAppend(Write, a, b);
  }

  // ----- reading

  /** The name up to the closing quote, and the text after it. */
  function ReadName(s: string): Option<(string, string)> {
    if s == "" then None
    else if s[0] != '"' then Extend(s[0], ReadName(s[1..]))
    else if |s| >= 2 && s[1] == '"' then Extend('"', ReadName(s[2..]))
    else Some(("", s[1..]))
  }

  function Extend(c: char, r: Option<(string, string)>): Option<(string, string)> {
    if r.None? then None else Some(([c] + r.value.0, r.value.1))
  }

  /** How many digits the text starts with. */
  function DigitCount(s: string): (n: nat)
    ensures n <= |s| && Digits(s[..n])
  {
    if s == "" || !IsDigit(s[0]) then 0
    else
      var n := DigitCount(s[1..]);
      assert s[..n + 1] == [s[0]] + s[1..][..n];
      n + 1
  }

  function Cons(t: Token, r: Option<seq<Token>>): Option<seq<Token>> {
    if r.None? then None else Some([t] + r.value)
  }

  /** Reads text into tokens, plain text letter by letter; an unclosed quote or a bare `$` is refused. */
  function Scan(s: string): Option<seq<Token>>
    decreases |s|
  {
    if s == "" then Some([])
    else if s[0] == '"' then
      var r := ReadName(s[1..]);
      if r.None? || |r.value.1| >= |s| then None else Cons(Name(r.value.0), Scan(r.value.1))
    else if s[0] == '$' then
      var n := DigitCount(s[1..]);
      if n == 0 then None else Cons(Parameter(Value(s[1..][..n])), Scan(s[1..][n..]))
    else Cons(Text([s[0]]), Scan(s[1..]))
  }

  // ----- reading back what was written

  predicate StartsWithQuote(s: string) { s != "" && s[0] == '"' }
  predicate StartsWithDigit(s: string) { s != "" && IsDigit(s[0]) }

  lemma {:induction false} ReadQuoted(name: string, rest: string)
    requires !StartsWithQuote(rest)
    ensures ReadName(Quoted(name) + ['"'] + rest) == Some((name, rest))
  {
    var s := Quoted(name) + ['"'] + rest;
    if name == "" {
      assert s == ['"'] + rest;
      assert s[1..] == rest;
    } else {
      ReadQuoted(name[1..], rest);
      var t := Quoted(name[1..]) + ['"'] + rest;
      assert name == [name[0]] + name[1..];
      if name[0] == '"' {
        assert s == ['"', '"'] + t && s[2..] == t;
      } else {
        assert s == [name[0]] + t && s[1..] == t;
      }
    }
  }

  lemma {:induction false} DigitsRead(digits: string, rest: string)
    requires Digits(digits) && !StartsWithDigit(rest)
    ensures DigitCount(digits + rest) == |digits|
  {
    if digits != "" {
      assert (digits + rest)[1..] == digits[1..] + rest;
      DigitsRead(digits[1..], rest);
    } else {
      assert digits + rest == rest;
    }
  }

  /** Plain text without the characters that start something else. */
  predicate PlainText(text: string) {
    '"' !in text && '$' !in text
  }

  function Letters(text: string): (r: seq<Token>)
    ensures |r| == |text| && forall k :: 0 <= k < |text| ==> r[k] == Text([text[k]])
  {
    seq(|text|, k requires 0 <= k < |text| => Text([text[k]]))
  }

  /** The tokens a reader sees: plain text letter by letter. */
  function Seen(t: Token): seq<Token> {
    if t.Text? then Letters(t.text) else [t]
  }

  function AllSeen(tokens: seq<Token>): seq<Token> {
    Concat(Seen, tokens)
  }

  /** A token that can be told from what follows it. */
  predicate Separable(t: Token, next: string) {
    && (t.Text? ==> PlainText(t.text))
    && (t.Name? ==> !StartsWithQuote(next))
    && (t.Parameter? ==> !StartsWithDigit(next))
  }

  ghost predicate Readable(tokens: seq<Token>) {
    forall i :: 0 <= i < |tokens| ==> Separable(tokens[i], Render(tokens[i + 1..]))
  }

  function Before(tokens: seq<Token>, r: Option<seq<Token>>): Option<seq<Token>> {
    if r.None? then None else Some(tokens + r.value)
  }

  lemma ScanLetter(c: char, rest: string)
    requires c != '"' && c != '$'
    ensures Scan([c] + rest) == Cons(Text([c]), Scan(rest))
  {
    assert ([c] + rest)[1..] == rest;
  }

  lemma {:induction false} ScanText(text: string, rest: string)
    requires PlainText(text)
    ensures Scan(text + rest) == Before(Letters(text), Scan(rest))
  {
    if text == "" {
      assert text + rest == rest;
      assert Scan(rest).Some? ==> [] + Scan(rest).value == Scan(rest).value;
    } else {
      var more := text[1..] + rest;
      assert text == [text[0]] + text[1..];
      Assoc([text[0]], text[1..], rest);
      ScanText(text[1..], rest);
      ScanLetter(text[0], more);
      assert Letters(text) == [Text([text[0]])] + Letters(text[1..]);
      if Scan(rest).Some? { Assoc([Text([text[0]])], Letters(text[1..]), Scan(rest).value); }
    }
  }

  lemma ScanName(name: string, rest: string)
    requires !StartsWithQuote(rest)
    ensures Scan(['"'] + (Quoted(name) + ['"'] + rest)) == Cons(Name(name), Scan(rest))
  {
    var t := Quoted(name) + ['"'] + rest;
    ReadQuoted(name, rest);
    assert (['"'] + t)[1..] == t;
  }

  lemma ScanParameter(digits: string, rest: string)
    requires digits != "" && Digits(digits) && !StartsWithDigit(rest)
    ensures Scan(['$'] + (digits + rest)) == Cons(Parameter(Value(digits)), Scan(rest))
  {
    var t := digits + rest;
    DigitsRead(digits, rest);
    assert (['$'] + t)[1..] == t;
    assert t[..|digits|] == digits && t[|digits|..] == rest;
  }

  lemma ScanStep(t: Token, rest: string)
    requires Separable(t, rest)
    ensures Scan(Write(t) + rest) == Before(Seen(t), Scan(rest))
  {
    if t.Text? {
      ScanText(t.text, rest);
    } else if t.Name? {
      Assoc(['"'], Quoted(t.name) + ['"'], rest);
      ScanName(t.name, rest);
    } else {
      Assoc(['$'], Decimal(t.number), rest);
      ScanParameter(Decimal(t.number), rest);
      ValueDecimal(t.number);
    }
  }

  /** The reader gets back exactly the tokens that were written. */
  lemma {:induction false} ScanRender(tokens: seq<Token>)
    requires Readable(tokens)
    ensures Scan(Render(tokens)) == Some(AllSeen(tokens))
  {
    if tokens != [] {
      var rest := tokens[1..];
      forall i | 0 <= i < |rest| ensures Separable(rest[i], Render(rest[i + 1..])) {
        assert rest[i] == tokens[i + 1] && rest[i + 1..] == tokens[i + 2..];
        assert Separable(tokens[i + 1], Render(tokens[i + 1 + 1..]));
      }
      ScanRender(rest);
      assert Separable(tokens[0], Render(tokens[0 + 1..]));
      ScanStep(tokens[0], Render(rest));
    }
  }

  // ----- a local test for readability

  /** What follows a token never starts with the character that would be read into it. */
  predicate Apart(a: Token, b: Token) {
    && (a.Name? ==> !b.Name?)
    && (a.Parameter? && b.Text? ==> !StartsWithDigit(b.text))
  }

  ghost predicate Plain(tokens: seq<Token>) {
    && (forall i :: 0 <= i < |tokens| && tokens[i].Text? ==> tokens[i].text != "" && PlainText(tokens[i].text))
    && (forall i :: 0 <= i < |tokens| - 1 ==> Apart(tokens[i], tokens[i + 1]))
  }

  lemma PlainIsReadable(tokens: seq<Token>)
    requires Plain(tokens)
    ensures Readable(tokens)
  {
    forall i | 0 <= i < |tokens| ensures Separable(tokens[i], Render(tokens[i + 1..])) {
      if i + 1 < |tokens| {
        assert Apart(tokens[i], tokens[i + 1]);
        var rest := tokens[i + 1..];
        assert Render(rest)[0] == Write(rest[0])[0];
        if rest[0].Text? { assert rest[0].text[0] in rest[0].text; }
      }
    }
  }
}
