/** What normalising a file path means: split at separators, resolve `.` and `..` against a
    stack of segments, join behind the path's root. */
module PathSpec {
  import opened Ascii
  import Splitting

  predicate IsSeparator(c: char) { c == '/' || c == '\\' }
  predicate IsLetter(c: char) { 'a' <= c <= 'z' || 'A' <= c <= 'Z' }
  function Split(s: string): (r: seq<string>)
    ensures r != []
  {
    Splitting.Split(s, IsSeparator)
  }

  function Join(segments: seq<string>): string {
    Splitting.Join(segments, '/')
  }

  predicate Plain(segment: string) {
    Splitting.Free(segment, IsSeparator)
  }

  // ----- resolving

  function Push(stack: seq<string>, segment: string, absolute: bool): seq<string> {
    if segment == "" || segment == "." then stack
    else if segment == ".." then
      if stack != [] && stack[|stack| - 1] != ".." then stack[..|stack| - 1]
      else if absolute then stack
      else stack + [".."]
    else stack + [segment]
  }

  function Resolve(stack: seq<string>, segments: seq<string>, absolute: bool): seq<string>
    decreases |segments|
  {
    if segments == [] then stack
    else Resolve(Push(stack, segments[0], absolute), segments[1..], absolute)
  }

  /** A segment that resolving keeps. */
  predicate Kept(segment: string) {
    segment != "" && segment != "." && Plain(segment)
  }

  /** Nothing is left to resolve: `..` only at the front, and nowhere under a root. */
  ghost predicate Resolved(stack: seq<string>, absolute: bool) {
    && (forall i :: 0 <= i < |stack| ==> Kept(stack[i]))
    && (forall i :: 0 <= i < |stack| && stack[i] == ".." ==> !absolute)
    && (forall i, j :: 0 <= i < j < |stack| && stack[j] == ".." ==> stack[i] == "..")
  }

  lemma {:induction false} ResolveResolves(stack: seq<string>, segments: seq<string>, absolute: bool)
    requires Resolved(stack, absolute) && forall i :: 0 <= i < |segments| ==> Plain(segments[i])
    ensures Resolved(Resolve(stack, segments, absolute), absolute)
    decreases |segments|
  {
    if segments != [] {
      ResolveResolves(Push(stack, segments[0], absolute), segments[1..], absolute);
    }
  }

  lemma {:induction false} ResolveKeeps(stack: seq<string>, segments: seq<string>, absolute: bool)
    requires Resolved(stack + segments, absolute)
    ensures Resolve(stack, segments, absolute) == stack + segments
    decreases |segments|
  {
    if segments != [] {
      var all, n := stack + segments, |stack|;
      assert all[n] == segments[0] && Kept(all[n]);
      assert n > 0 ==> all[n - 1] == stack[n - 1];
      assert Push(stack, segments[0], absolute) == stack + [segments[0]];
      assert stack + [segments[0]] + segments[1..] == all;
      ResolveKeeps(stack + [segments[0]], segments[1..], absolute);
    } else {
      assert stack + segments == stack;
    }
  }

  /** Empty segments do not matter. */
  lemma ResolveEmpty(stack: seq<string>, segments: seq<string>, absolute: bool)
    ensures Resolve(stack, [""] + segments, absolute) == Resolve(stack, segments, absolute)
  {
    assert ([""] + segments)[1..] == segments;
  }

  // ----- rendering

  predicate NeedsSlash(text: string) {
    text != "" && text[|text| - 1] != '/'
  }

  function Glue(text: string, segment: string): string {
    (if NeedsSlash(text) then text + "/" else text) + segment
  }

  function Render(prefix: string, stack: seq<string>): string {
    if stack == [] then prefix else Glue(Render(prefix, stack[..|stack| - 1]), stack[|stack| - 1])
  }

  predicate EndsPlain(text: string) {
    text != "" && !IsSeparator(text[|text| - 1])
  }

  lemma GlueEnds(text: string, segment: string)
    requires Kept(segment)
    ensures EndsPlain(Glue(text, segment)) && NeedsSlash(Glue(text, segment))
  {
    assert !IsSeparator(segment[|segment| - 1]);
  }

  /** A root, or nothing, in front of the joined segments. */
  lemma {:induction false} RenderJoins(prefix: string, stack: seq<string>)
    requires !NeedsSlash(prefix) && forall i :: 0 <= i < |stack| ==> Kept(stack[i])
    ensures Render(prefix, stack) == prefix + Join(stack)
    ensures stack != [] ==> NeedsSlash(Render(prefix, stack))
  {
    if stack != [] {
      var front, last := stack[..|stack| - 1], stack[|stack| - 1];
      assert stack == front + [last];
      RenderJoins(prefix, front);
      GlueEnds(Render(prefix, front), last);
      if front != [] {
        Splitting.JoinLast(front, last, '/');
        assert Render(prefix, stack) == prefix + Join(front) + "/" + last;
      } else {
        assert Join(stack) == last;
      }
    }
  }

  /** A drive without a root gains a slash in front of its first segment. */
  lemma {:induction false} RenderGainsSlash(prefix: string, stack: seq<string>)
    requires NeedsSlash(prefix) && stack != [] && forall i :: 0 <= i < |stack| ==> Kept(stack[i])
    ensures Render(prefix, stack) == prefix + "/" + Join(stack)
    ensures NeedsSlash(Render(prefix, stack))
  {
    var front, last := stack[..|stack| - 1], stack[|stack| - 1];
    assert stack == front + [last];
    if front == [] {
      assert Render(prefix, front) == prefix && Join(stack) == last;
      GlueEnds(prefix, last);
    } else {
      RenderGainsSlash(prefix, front);
      GlueEnds(Render(prefix, front), last);
      Splitting.JoinLast(front, last, '/');
      assert Render(prefix, stack) == prefix + "/" + Join(front) + "/" + last;
    }
  }

  // ----- the whole

  predicate HasRoot(s: string) { s != "" && IsSeparator(s[0]) }
  predicate HasDrive(s: string) { |s| >= 2 && IsLetter(s[0]) && s[1] == ':' }
  predicate Rooted(s: string) { if HasDrive(s) then HasRoot(s[2..]) else HasRoot(s) }

  function Prefix(s: string): string {
    if HasDrive(s) then [Lower(s[0]), ':'] + (if HasRoot(s[2..]) then "/" else "")
    else if HasRoot(s) then (if HasRoot(s[1..]) then "//" else "/")
    else ""
  }

  function Body(s: string): string {
    if HasDrive(s) then s[2..] else s
  }

  function Segments(s: string): seq<string> {
    Resolve([], Split(Body(s)), Rooted(s))
  }

  function Normalized(s: string): string {
    Render(Prefix(s), Segments(s))
  }

  /** No empty, `.` or inner `..` segment is left, and no `..` at all under a root. */
  lemma SegmentsResolved(s: string)
    ensures Resolved(Segments(s), Rooted(s))
  {
    Splitting.SplitPieces(Body(s), IsSeparator);
    ResolveResolves([], Split(Body(s)), Rooted(s));
  }

  // ----- normalising again

  /** Reading back `root + joined segments`. */
  lemma RereadRooted(root: string, stack: seq<string>)
    requires Resolved(stack, true) && (root == "/" || root == "//")
    ensures Resolve([], Split(root + Join(stack)), true) == stack
  {
    var joined := Join(stack);
    RereadJoined(stack, true);
    assert (("/" + joined)[1..]) == joined;
    assert Split("/" + joined) == [""] + Split(joined);
    ResolveEmpty([], Split(joined), true);
    assert (("//" + joined)[1..]) == "/" + joined;
    assert Split("//" + joined) == [""] + Split("/" + joined);
    ResolveEmpty([], Split("/" + joined), true);
  }

  lemma RereadJoined(stack: seq<string>, absolute: bool)
    requires Resolved(stack, absolute)
    ensures Resolve([], Split(Join(stack)), absolute) == stack
  {
    if stack == [] {
      assert Split("") == [""] + [];
      ResolveEmpty([], [], absolute);
    } else {
      Splitting.SplitJoin(stack, '/', IsSeparator);
      ResolveKeeps([], stack, absolute);
      assert [] + stack == stack;
    }
  }

  lemma DriveParts(c: char, body: string)
    requires IsLetter(c)
    ensures var t := [c, ':'] + body;
            && HasDrive(t) && Rooted(t) == HasRoot(body) && Body(t) == body
            && Prefix(t) == [Lower(c), ':'] + (if HasRoot(body) then "/" else "")
            && Segments(t) == Resolve([], Split(body), HasRoot(body))
  {
    assert ([c, ':'] + body)[2..] == body;
  }

  lemma DriveRooted(c: char, body: string, stack: seq<string>)
    requires IsLetter(c) && Resolved(stack, true) && body == "/" + Join(stack)
    ensures Normalized([c, ':'] + body) == [Lower(c), ':'] + body
  {
    var p := [Lower(c), ':'] + "/";
    DriveParts(c, body);
    assert HasRoot(body) && p[2] == '/';
    RereadRooted("/", stack);
    RenderJoins(p, stack);
    assert p + Join(stack) == [Lower(c), ':'] + body;
  }

  /** Rooted paths: normalising again changes nothing. */
  lemma RootedStable(s: string)
    requires Rooted(s)
    ensures Normalized(Normalized(s)) == Normalized(s)
  {
    var stack, p := Segments(s), Prefix(s);
    SegmentsResolved(s);
    RenderJoins(p, stack);
    if HasDrive(s) {
      var body := "/" + Join(stack);
      assert p + Join(stack) == [Lower(s[0]), ':'] + body;
      DriveRooted(Lower(s[0]), body, stack);
    } else {
      RereadRooted(p, stack);
      RootKept(p, stack);
      assert Segments(p + Join(stack)) == stack;
    }
  }

  lemma RootKept(root: string, stack: seq<string>)
    requires (root == "/" || root == "//") && forall i :: 0 <= i < |stack| ==> Kept(stack[i])
    ensures !HasDrive(root + Join(stack)) && Prefix(root + Join(stack)) == root && HasRoot(root + Join(stack))
  {
    var t := root + Join(stack);
    assert t[0] == '/';
    assert t[1..] == root[1..] + Join(stack);
    JoinDrive(stack);
  }

  /** A drive without a root becomes rooted when it has segments, so a kept `..` is lost next time. */
  lemma DriveStable(s: string)
    requires HasDrive(s) && !Rooted(s)
    ensures Normalized(Normalized(s)) == Normalized(s) <==> ".." !in Segments(s)
  {
    var stack, c := Segments(s), Lower(s[0]);
    SegmentsResolved(s);
    BareDrive(s, c, stack);
    if stack == [] {
      DriveAlone(c);
    } else if ".." !in stack {
      assert Resolved(stack, true);
      DriveRooted(c, "/" + Join(stack), stack);
    } else {
      DriveLosesParent(c, stack);
    }
  }

  lemma BareDrive(s: string, c: char, stack: seq<string>)
    requires HasDrive(s) && !Rooted(s) && stack == Segments(s) && c == Lower(s[0]) && Resolved(stack, false)
    ensures IsLetter(c) && Lower(c) == c && Prefix(s) == [c, ':']
    ensures Normalized(s) == [c, ':'] + if stack == [] then "" else "/" + Join(stack)
  {
    if stack != [] {
      RenderGainsSlash([c, ':'], stack);
      assert [c, ':'] + "/" + Join(stack) == [c, ':'] + ("/" + Join(stack));
    }
  }

  lemma DriveAlone(c: char)
    requires IsLetter(c)
    ensures Normalized([c, ':'] + "") == [Lower(c), ':'] + ""
  {
    DriveParts(c, "");
    RereadJoined([], false);
  }

  lemma DriveLosesParent(c: char, stack: seq<string>)
    requires IsLetter(c) && Lower(c) == c && Resolved(stack, false) && ".." in stack
    ensures Normalized([c, ':'] + ("/" + Join(stack))) != [c, ':'] + ("/" + Join(stack))
  {
    var t := [c, ':'] + ("/" + Join(stack));
    DriveParts(c, "/" + Join(stack));
    SegmentsResolved(t);
    RenderJoins([c, ':'] + "/", Segments(t));
    assert Segments(t) != stack;
    assert [c, ':'] + ("/" + Join(stack)) == [c, ':'] + "/" + Join(stack);
    if Normalized(t) == t { SameJoin(Segments(t), stack, [c, ':'] + "/"); }
  }

  /** Two lists of kept segments with the same joined text are the same list. */
  lemma SameJoin(a: seq<string>, b: seq<string>, prefix: string)
    requires (forall i :: 0 <= i < |a| ==> Kept(a[i])) && (forall i :: 0 <= i < |b| ==> Kept(b[i]))
    requires prefix + Join(a) == prefix + Join(b)
    ensures a == b
  {
    assert Join(a) == (prefix + Join(a))[|prefix|..] == Join(b);
    JoinEmpty(a);
    JoinEmpty(b);
    if a != [] && b != [] {
      Splitting.SplitJoin(a, '/', IsSeparator);
      Splitting.SplitJoin(b, '/', IsSeparator);
    }
  }

  lemma JoinEmpty(a: seq<string>)
    requires forall i :: 0 <= i < |a| ==> Kept(a[i])
    ensures Join(a) == "" <==> a == []
  {
    if a != [] { assert Kept(a[0]); }
  }

  /** A relative path whose first kept segment looks like a drive is read as a drive next time. */
  predicate ReadsAsDrive(stack: seq<string>) {
    stack != [] && HasDrive(stack[0])
  }

  lemma JoinDrive(stack: seq<string>)
    requires forall i :: 0 <= i < |stack| ==> Kept(stack[i])
    ensures HasDrive(Join(stack)) <==> ReadsAsDrive(stack)
    ensures !HasRoot(Join(stack))
  {
    if stack != [] {
      assert Kept(stack[0]);
      if |stack| > 1 { JoinStarts(stack[0], Join(stack[1..])); }
    }
  }

  lemma JoinStarts(first: string, rest: string)
    requires Kept(first)
    ensures HasDrive(first + "/" + rest) <==> HasDrive(first)
    ensures !HasRoot(first + "/" + rest)
  {
    var t := first + "/" + rest;
    assert t[0] == first[0] && t[1] == if |first| == 1 then '/' else first[1];
  }

  lemma RelativeStable(s: string)
    requires !HasDrive(s) && !Rooted(s)
    ensures Normalized(Normalized(s)) == Normalized(s) <==>
      (!ReadsAsDrive(Segments(s)) || (|Segments(s)[0]| == 2 && 'a' <= Segments(s)[0][0] <= 'z'))
  {
    var stack, t := Segments(s), Normalized(s);
    SegmentsResolved(s);
    RenderJoins("", stack);
    assert t == Join(stack);
    JoinDrive(stack);
    if !ReadsAsDrive(stack) {
      RereadJoined(stack, false);
    } else if |stack[0]| == 2 {
      DriveSegmentAlone(stack);
    } else {
      DriveSegmentLonger(stack);
    }
  }

  lemma DriveSegmentAlone(stack: seq<string>)
    requires Resolved(stack, false) && ReadsAsDrive(stack) && |stack[0]| == 2
    ensures Normalized(Join(stack)) == Join(stack) <==> 'a' <= stack[0][0] <= 'z'
  {
    var c := stack[0][0];
    assert stack[0] == [c, ':'];
    assert Lower(c) == c <==> 'a' <= c <= 'z';
    if |stack| == 1 {
      assert Join(stack) == [c, ':'] + "";
      DriveAlone(c);
    } else {
      TailResolved(stack);
      var body := "/" + Join(stack[1..]);
      assert Join(stack) == [c, ':'] + body;
      DriveRooted(c, body, stack[1..]);
      assert ([Lower(c), ':'] + body)[0] == Lower(c) && ([c, ':'] + body)[0] == c;
    }
  }

  lemma TailResolved(stack: seq<string>)
    requires Resolved(stack, false) && stack != [] && stack[0] != ".."
    ensures Resolved(stack[1..], true)
  {
    assert forall i :: 0 < i < |stack| ==> stack[i] != "..";
  }

  lemma DriveSegmentLonger(stack: seq<string>)
    requires Resolved(stack, false) && ReadsAsDrive(stack) && |stack[0]| > 2
    ensures Normalized(Join(stack)) != Join(stack)
  {
    var t, first := Join(stack), stack[0];
    assert Kept(first) && !IsSeparator(first[2]);
    assert |t| > 2 && t[0] == first[0] && t[1] == ':' && t[2] == first[2];
    assert t == [t[0], ':'] + t[2..];
    DriveParts(t[0], t[2..]);
    var again := Segments(t);
    SegmentsResolved(t);
    if again == [] {
      assert |Normalized(t)| == 2;
    } else {
      RenderGainsSlash(Prefix(t), again);
      assert Normalized(t)[2] == '/';
    }
  }

  // ----- the condition, read off the pieces between separators

  /** The segment a relative path will begin with, found by counting depth over its pieces: `..`
      when they climb out, nothing when everything cancels. `lead` is the piece at depth one. */
  function Lead(pieces: seq<string>, lead: string, depth: nat): string
    decreases |pieces|
  {
    if pieces == [] then if depth == 0 then "" else lead
    else if pieces[0] == "" || pieces[0] == "." then Lead(pieces[1..], lead, depth)
    else if pieces[0] == ".." then if depth == 0 then ".." else Lead(pieces[1..], lead, depth - 1)
    else Lead(pieces[1..], if depth == 0 then pieces[0] else lead, depth + 1)
  }

  lemma {:induction false} ClimbedOut(stack: seq<string>, pieces: seq<string>)
    requires stack != [] && stack[0] == ".."
    ensures Resolve(stack, pieces, false) != [] && Resolve(stack, pieces, false)[0] == ".."
    decreases |pieces|
  {
    if pieces != [] { ClimbedOut(Push(stack, pieces[0], false), pieces[1..]); }
  }

  function First(stack: seq<string>): string { if stack == [] then "" else stack[0] }

  /** The count finds the first segment of what resolving leaves. */
  lemma {:induction false} LeadIs(stack: seq<string>, pieces: seq<string>, lead: string)
    requires (forall i :: 0 <= i < |stack| ==> stack[i] != "..") && (stack != [] ==> stack[0] == lead)
    ensures Lead(pieces, lead, |stack|) == First(Resolve(stack, pieces, false))
    decreases |pieces|
  {
    if pieces != [] {
      var next := Push(stack, pieces[0], false);
      if pieces[0] == ".." && stack == [] {
        ClimbedOut(next, pieces[1..]);
      } else {
        LeadIs(next, pieces[1..], if stack == [] && next != [] then next[0] else lead);
      }
    }
  }

  lemma LeadOf(s: string)
    requires !Rooted(s)
    ensures Lead(Split(Body(s)), "", 0) == First(Segments(s))
    ensures ".." in Segments(s) <==> First(Segments(s)) == ".."
  {
    LeadIs([], Split(Body(s)), "");
    SegmentsResolved(s);
  }

  /** Whether a caller may normalise again: always under a root; a bare drive unless its pieces
      climb out; a relative path unless its first segment is then read as a drive in need of change. */
  predicate Stable(s: string) {
    var lead := Lead(Split(Body(s)), "", 0);
    if Rooted(s) then true
    else if HasDrive(s) then lead != ".."
    else !HasDrive(lead) || (|lead| == 2 && 'a' <= lead[0] <= 'z')
  }

  lemma IdempotentIffStable(s: string)
    ensures Normalized(Normalized(s)) == Normalized(s) <==> Stable(s)
  {
    if Rooted(s) {
      RootedStable(s);
    } else {
      LeadOf(s);
      if HasDrive(s) { DriveStable(s); } else { RelativeStable(s); }
    }
  }

  /** A drive followed by `..` is not stable. */
  lemma DriveParentUnstable(s: string)
    requires HasDrive(s) && Body(s) == ".."
    ensures !Stable(s)
  {
    Splitting.SplitFree("..", IsSeparator);
    assert Split(Body(s)) == [".."];
  }

  /** A drive-like name kept behind `./`. */
  lemma DotDrive(s: string, name: string)
    requires s == "." + "/" + name && Plain(name) && HasDrive(name) && |name| == 2
    ensures Stable(s) <==> 'a' <= name[0] <= 'z'
  {
    Splitting.SplitFirst(".", '/', name, IsSeparator);
    Splitting.SplitFree(name, IsSeparator);
    assert s[0] == '.';
    assert Split(s) == ["."] + [name];
    assert (["."] + [name])[1..] == [name] && [name][1..] == [];
    assert name[1] == ':' && name != "" && name != "." && name != "..";
    assert Lead([name], "", 0) == Lead([], name, 1) == name;
  }

  /** Inputs that show each exception. */
  lemma NotAlwaysIdempotent()
    ensures Normalized(Normalized("c:..")) != Normalized("c:..")
    ensures Normalized(Normalized("./C:")) != Normalized("./C:")
    ensures Normalized(Normalized("./c:")) == Normalized("./c:")
  {
    DriveParentUnstable("c:..");
    DotDrive("./C:", "C:");
    DotDrive("./c:", "c:");
    IdempotentIffStable("c:..");
    IdempotentIffStable("./C:");
    IdempotentIffStable("./c:");
  }
}
