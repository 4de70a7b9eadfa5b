/** The path normaliser as it runs: one pass over the input, writing the output in place and
    cutting it back to a remembered offset at each `..`. */
module PathNormalizer {
  import opened Ascii
  import Splitting
  import opened PathSpec

  const LIMIT := 4096
  const OFFSETS := LIMIT / 2 + 2

  // ----- the offset stack stands for a stack of segments

  /** Each offset is where its segment's text begins; a kept `..` is marked and never cut. */
  ghost predicate OffsetsOk(prefix: string, stack: seq<string>, offsets: seq<nat>, parents: seq<bool>)
    requires |stack| <= |offsets| && |offsets| == |parents|
  {
    stack == [] ||
    (var n := |stack| - 1;
     && (parents[n] <==> stack[n] == "..")
     && (!parents[n] ==> offsets[n] == |Render(prefix, stack[..n])|)
     && OffsetsOk(prefix, stack[..n], offsets, parents))
  }

  ghost predicate Tracks(prefix: string, stack: seq<string>, out: seq<char>, written: nat,
                         offsets: seq<nat>, parents: seq<bool>, count: nat)
  {
    && count == |stack| <= |offsets| && |offsets| == |parents| && written <= |out|
    && out[..written] == Render(prefix, stack)
    && OffsetsOk(prefix, stack, offsets, parents)
  }

  lemma RenderPrefix(prefix: string, stack: seq<string>)
    requires stack != []
    ensures var front := Render(prefix, stack[..|stack| - 1]);
            |front| <= |Render(prefix, stack)| && Render(prefix, stack)[..|front|] == front
  {
  }

  lemma TracksPop(prefix: string, stack: seq<string>, out: seq<char>, written: nat,
                  offsets: seq<nat>, parents: seq<bool>, count: nat)
    requires Tracks(prefix, stack, out, written, offsets, parents, count) && count > 0 && !parents[count - 1]
    ensures offsets[count - 1] <= written
    ensures Tracks(prefix, stack[..count - 1], out, offsets[count - 1], offsets, parents, count - 1)
  {
    RenderPrefix(prefix, stack);
    assert out[..offsets[count - 1]] == out[..written][..offsets[count - 1]];
  }

  /** Entries beyond the stack do not matter. */
  lemma {:induction false} OffsetsBelow(prefix: string, stack: seq<string>, offsets: seq<nat>, parents: seq<bool>,
                                        k: nat, offset: nat, parent: bool)
    requires |stack| <= k < |offsets| && |offsets| == |parents| && OffsetsOk(prefix, stack, offsets, parents)
    ensures OffsetsOk(prefix, stack, offsets[k := offset], parents[k := parent])
  {
    if stack != [] { OffsetsBelow(prefix, stack[..|stack| - 1], offsets, parents, k, offset, parent); }
  }

  lemma TracksPush(prefix: string, stack: seq<string>, out: seq<char>, written: nat,
                   offsets: seq<nat>, parents: seq<bool>, count: nat,
                   segment: string, out': seq<char>, written': nat, offset: nat)
    requires Tracks(prefix, stack, out, written, offsets, parents, count) && count < |offsets|
    requires written' <= |out'| && out'[..written'] == Glue(out[..written], segment)
    requires segment != ".." ==> offset == written
    ensures Tracks(prefix, stack + [segment], out', written',
                   offsets[count := offset], parents[count := segment == ".."], count + 1)
  {
    assert (stack + [segment])[..count] == stack;
    OffsetsBelow(prefix, stack, offsets, parents, count, offset, segment == "..");
  }

  // ----- scanning

  method FindEnd(value: string, input: nat) returns (end: nat)
    requires input <= |value|
    ensures input <= end <= |value| && Plain(value[input..end])
    ensures end < |value| ==> IsSeparator(value[end])
  {
    end := input;
    while end < |value| && !IsSeparator(value[end])
      invariant input <= end <= |value| && Plain(value[input..end])
    {
      assert value[input..end + 1] == value[input..end] + [value[end]];
      end := end + 1;
    }
  }

  method SkipSeparators(value: string, from: nat, ghost stack: seq<string>, ghost absolute: bool) returns (input: nat)
    requires from <= |value|
    ensures from <= input <= |value|
    ensures Resolve(stack, Split(value[input..]), absolute) == Resolve(stack, Split(value[from..]), absolute)
  {
    input := from;
    while input < |value| && IsSeparator(value[input])
      invariant from <= input <= |value|
      invariant Resolve(stack, Split(value[input..]), absolute) == Resolve(stack, Split(value[from..]), absolute)
    {
      SplitSkips(value[input..], stack, absolute);
      assert value[input..][1..] == value[input + 1..];
      input := input + 1;
    }
  }

  lemma SplitSkips(s: string, stack: seq<string>, absolute: bool)
    requires HasRoot(s)
    ensures Resolve(stack, Split(s[1..]), absolute) == Resolve(stack, Split(s), absolute)
  {
    ResolveEmpty(stack, Split(s[1..]), absolute);
  }

  // ----- writing

  method WritePrefix(value: string, output: array<char>) returns (written: nat, input: nat, absolute: bool)
    requires |value| <= LIMIT && output.Length == LIMIT + 1
    modifies output
    ensures written == |Prefix(value)| && output[..written] == Prefix(value) && absolute == Rooted(value)
    ensures input <= |value| && written + (if NeedsSlash(Prefix(value)) then 1 else 0) <= input + Slack(value)
    ensures Resolve([], Split(value[input..]), absolute) == Segments(value)
  {
    absolute := HasRoot(value);
    written, input := 0, 0;
    if HasDrive(value) {
      output[0], output[1] := Lower(value[0]), ':';
      written, input := 2, 2;
      if input < |value| && IsSeparator(value[input]) {
        output[2] := '/';
        SplitSkips(value[2..], [], true);
        assert value[2..][1..] == value[3..];
        written, input, absolute := 3, 3, true;
      }
    } else if absolute {
      output[0] := '/';
      written := 1;
      if |value| >= 2 && IsSeparator(value[1]) {
        output[1] := '/';
        written := 2;
        SplitSkips(value, [], true);
        SplitSkips(value[1..], [], true);
        assert value[1..][1..] == value[2..];
        input := SkipSeparators(value, 2, [], true);
      } else {
        SplitSkips(value, [], true);
        input := SkipSeparators(value, 1, [], true);
      }
    }
    assert value[0..] == value;
  }

  /** A drive without a root may come out one character longer than it went in. */
  function Slack(value: string): nat {
    if HasDrive(value) && !Rooted(value) then 1 else 0
  }

  method AppendSegment(output: array<char>, written: nat, segment: string) returns (ok: bool, written': nat)
    requires output.Length == LIMIT + 1 && written <= LIMIT
    modifies output
    ensures ok <==> |Glue(old(output[..written]), segment)| <= LIMIT
    ensures ok ==> written' == |Glue(old(output[..written]), segment)|
    ensures ok ==> output[..written'] == Glue(old(output[..written]), segment)
  {
    ghost var text := output[..written];
    written' := written;
    if written != 0 && output[written - 1] != '/' {
      output[written] := '/';
      written' := written + 1;
      assert output[..written'] == text + "/";
    }
    if written' + |segment| >= output.Length { return false, written'; }
    ghost var before := output[..written'];
    for i := 0 to |segment|
      invariant output[..written' + i] == before + segment[..i]
    {
      output[written' + i] := segment[i];
      assert segment[..i + 1] == segment[..i] + [segment[i]];
    }
    assert segment[..|segment|] == segment;
    return true, written' + |segment|;
  }

  /** Handles one segment; `stack` is what the written text stands for. */
  method Handle(segment: string, absolute: bool, output: array<char>, offsets: array<nat>, parents: array<bool>,
                written: nat, count: nat, ghost prefix: string, ghost stack: seq<string>)
    returns (ok: bool, written': nat, count': nat)
    requires output.Length == LIMIT + 1 && offsets.Length == parents.Length == OFFSETS && written <= LIMIT
    requires Tracks(prefix, stack, output[..], written, offsets[..], parents[..], count) && count < OFFSETS
    modifies output, offsets, parents
    ensures ok <==> |Render(prefix, Push(stack, segment, absolute))| <= LIMIT
    ensures ok ==> Tracks(prefix, Push(stack, segment, absolute), output[..], written', offsets[..], parents[..], count')
    ensures ok ==> written' <= LIMIT
  {
    ok, written', count' := true, written, count;
    if segment == "" || segment == "." { return; }
    if segment == ".." {
      if count != 0 && !parents[count - 1] {
        TracksPop(prefix, stack, output[..], written, offsets[..], parents[..], count);
        return true, offsets[count - 1], count - 1;
      }
      if absolute { return; }
    }
    ok, written', count' := Keep(segment, output, offsets, parents, written, count, prefix, stack);
  }

  method Keep(segment: string, output: array<char>, offsets: array<nat>, parents: array<bool>,
              written: nat, count: nat, ghost prefix: string, ghost stack: seq<string>)
    returns (ok: bool, written': nat, count': nat)
    requires output.Length == LIMIT + 1 && offsets.Length == parents.Length == OFFSETS && written <= LIMIT
    requires Tracks(prefix, stack, output[..], written, offsets[..], parents[..], count) && count < OFFSETS
    modifies output, offsets, parents
    ensures ok <==> |Render(prefix, stack + [segment])| <= LIMIT
    ensures ok ==> Tracks(prefix, stack + [segment], output[..], written', offsets[..], parents[..], count')
    ensures ok ==> written' <= LIMIT
  {
    ghost var out, from, flags := output[..], offsets[..], parents[..];
    assert out[..written] == output[..written];
    assert Render(prefix, stack + [segment]) == Glue(out[..written], segment) by {
      assert (stack + [segment])[..|stack|] == stack;
    }
    ok, written' := AppendSegment(output, written, segment);
    count' := count;
    if !ok { return; }
    var offset := if segment == ".." then written' - 2 else written;
    offsets[count] := offset;
    parents[count] := segment == "..";
    count' := count + 1;
    assert offsets[..] == from[count := offset] && parents[..] == flags[count := segment == ".."];
    assert output[..][..written'] == output[..written'];
    TracksPush(prefix, stack, out, written, from, flags, count, segment, output[..], written', offset);
  }

  /** How much of the output a consumed part of the input can need. */
  ghost predicate Affordable(text: string, used: nat, slack: nat) {
    |text| + (if NeedsSlash(text) then 1 else 0) <= used + slack
  }

  /** So can every shorter stack that popping may lead to. */
  ghost predicate AllAffordable(prefix: string, stack: seq<string>, used: nat, slack: nat) {
    && Affordable(Render(prefix, stack), used, slack)
    && (stack == [] || AllAffordable(prefix, stack[..|stack| - 1], used, slack))
  }

  lemma {:induction false} MoreUsed(prefix: string, stack: seq<string>, used: nat, more: nat, slack: nat)
    requires AllAffordable(prefix, stack, used, slack) && used <= more
    ensures AllAffordable(prefix, stack, more, slack)
  {
    if stack != [] { MoreUsed(prefix, stack[..|stack| - 1], used, more, slack); }
  }

  /** Pushing leaves the stack, takes its last segment off, or adds a segment. */
  ghost predicate Pushes(stack: seq<string>, segment: string, pushed: seq<string>) {
    || pushed == stack
    || (stack != [] && pushed == stack[..|stack| - 1])
    || (segment != "" && pushed == stack + [segment])
  }

  lemma PushPushes(stack: seq<string>, segment: string, absolute: bool)
    ensures Pushes(stack, segment, Push(stack, segment, absolute))
  {
  }

  lemma RenderNext(prefix: string, stack: seq<string>, segment: string)
    ensures Render(prefix, stack + [segment]) == Glue(Render(prefix, stack), segment)
  {
    assert (stack + [segment])[..|stack|] == stack;
  }

  lemma AddAffordable(prefix: string, stack: seq<string>, segment: string, used: nat, slack: nat)
    requires AllAffordable(prefix, stack, used, slack)
    ensures |Render(prefix, stack + [segment])| <= used + |segment| + slack
    ensures AllAffordable(prefix, stack + [segment], used + |segment| + 1, slack)
  {
    RenderNext(prefix, stack, segment);
    MoreUsed(prefix, stack, used, used + |segment| + 1, slack);
    assert (stack + [segment])[..|stack|] == stack;
  }

  lemma PushAffordable(prefix: string, stack: seq<string>, segment: string, pushed: seq<string>, used: nat, slack: nat)
    requires AllAffordable(prefix, stack, used, slack) && Pushes(stack, segment, pushed)
    ensures |Render(prefix, pushed)| <= used + |segment| + slack
    ensures AllAffordable(prefix, pushed, used + |segment| + 1, slack)
  {
    if segment != "" && pushed == stack + [segment] {
      AddAffordable(prefix, stack, segment, used, slack);
    } else {
      MoreUsed(prefix, pushed, used, used + |segment| + 1, slack);
    }
  }

  /** What a path asks for: its root, whether `..` stops there, how much longer the result may
      get, and the segments to end with. */
  datatype Goal = Goal(prefix: string, absolute: bool, slack: nat, segments: seq<string>)

  ghost function GoalOf(value: string): Goal {
    Goal(Prefix(value), Rooted(value), Slack(value), Segments(value))
  }

  /** What stands at the top of the loop: `stack` is written out, the rest of the input remains. */
  ghost predicate Midway(value: string, g: Goal, input: nat, stack: seq<string>) {
    && input <= |value| && 2 * |stack| <= input
    && AllAffordable(g.prefix, stack, input, g.slack)
    && Resolve(stack, Split(value[input..]), g.absolute) == g.segments
  }

  lemma MidwayStep(value: string, g: Goal, input: nat, stack: seq<string>, end: nat, pushed: seq<string>)
    requires Midway(value, g, input, stack) && input <= end <= |value| && Plain(value[input..end])
    requires end < |value| ==> IsSeparator(value[end])
    requires pushed == Push(stack, value[input..end], g.absolute)
    ensures |Render(g.prefix, pushed)| <= end + g.slack
    ensures end == |value| ==> g.segments == pushed
    ensures end < |value| ==> Midway(value, g, end + 1, pushed)
  {
    var segment := value[input..end];
    PushPushes(stack, segment, g.absolute);
    PushAffordable(g.prefix, stack, segment, pushed, input, g.slack);
    SegmentsAhead(value, g, input, stack, end, pushed);
  }

  lemma SegmentsAhead(value: string, g: Goal, input: nat, stack: seq<string>, end: nat, pushed: seq<string>)
    requires input <= end <= |value| && Plain(value[input..end]) && (end < |value| ==> IsSeparator(value[end]))
    requires Resolve(stack, Split(value[input..]), g.absolute) == g.segments
    requires pushed == Push(stack, value[input..end], g.absolute)
    ensures end == |value| ==> g.segments == pushed
    ensures end < |value| ==> Resolve(pushed, Split(value[end + 1..]), g.absolute) == g.segments
  {
    Splitting.SplitStep(value, input, end, IsSeparator);
    var segment, rest := value[input..end], if end < |value| then Split(value[end + 1..]) else [];
    assert ([segment] + rest)[1..] == rest;
  }

  lemma MidwaySkip(value: string, g: Goal, from: nat, input: nat, stack: seq<string>)
    requires Midway(value, g, from, stack) && from <= input <= |value|
    requires Resolve(stack, Split(value[input..]), g.absolute) == Resolve(stack, Split(value[from..]), g.absolute)
    ensures Midway(value, g, input, stack)
  {
    MoreUsed(g.prefix, stack, from, input, g.slack);
  }

  method NextSegment(value: string, from: nat, ghost g: Goal, ghost stack: seq<string>) returns (input: nat)
    requires Midway(value, g, from, stack)
    ensures from <= input && Midway(value, g, input, stack)
  {
    input := SkipSeparators(value, from, stack, g.absolute);
    MidwaySkip(value, g, from, input, stack);
  }

  /** One pass of the loop: finds the next segment and handles it. */
  method TakeSegment(value: string, input: nat, absolute: bool, output: array<char>, offsets: array<nat>,
                     parents: array<bool>, written: nat, count: nat, ghost g: Goal, ghost stack: seq<string>)
    returns (ok: bool, written': nat, count': nat, end: nat, ghost pushed: seq<string>)
    requires output.Length == LIMIT + 1 && offsets.Length == parents.Length == OFFSETS && written <= LIMIT
    requires |value| <= LIMIT && g.slack <= 1 && g.absolute == absolute && Midway(value, g, input, stack)
    requires Tracks(g.prefix, stack, output[..], written, offsets[..], parents[..], count)
    modifies output, offsets, parents
    ensures input <= end <= |value|
    ensures ok <==> |Render(g.prefix, pushed)| <= LIMIT
    // only the last segment can be the one that does not fit
    ensures !ok ==> end == |value|
    ensures ok ==> written' <= LIMIT && Tracks(g.prefix, pushed, output[..], written', offsets[..], parents[..], count')
    ensures end == |value| ==> (ok <==> |Render(g.prefix, g.segments)| <= LIMIT)
    ensures end == |value| && ok ==> output[..written'] == Render(g.prefix, g.segments)
    ensures end < |value| ==> Midway(value, g, end + 1, pushed)
  {
    end := FindEnd(value, input);
    pushed := Push(stack, value[input..end], absolute);
    MidwayStep(value, g, input, stack, end, pushed);
    ok, written', count' := Handle(value[input..end], absolute, output, offsets, parents, written, count, g.prefix, stack);
    if ok { assert output[..][..written'] == output[..written']; }
  }

  /** One pass of the loop; `more` says that input is left. */
  method Pass(value: string, input: nat, absolute: bool, output: array<char>, offsets: array<nat>,
              parents: array<bool>, written: nat, count: nat, ghost g: Goal, ghost stack: seq<string>)
    returns (more: bool, ok: bool, written': nat, count': nat, input': nat, ghost pushed: seq<string>)
    requires output.Length == LIMIT + 1 && offsets.Length == parents.Length == OFFSETS && written <= LIMIT
    requires |value| <= LIMIT && g.slack <= 1 && g.absolute == absolute && Midway(value, g, input, stack)
    requires Tracks(g.prefix, stack, output[..], written, offsets[..], parents[..], count)
    modifies output, offsets, parents
    ensures more ==> ok && input < input' && Midway(value, g, input', pushed)
    ensures more ==> written' <= LIMIT && Tracks(g.prefix, pushed, output[..], written', offsets[..], parents[..], count')
    ensures !more ==> (ok <==> |Render(g.prefix, g.segments)| <= LIMIT)
    ensures !more && ok ==> written' <= LIMIT && output[..written'] == Render(g.prefix, g.segments)
  {
    var end;
    ok, written', count', end, pushed :=
      TakeSegment(value, input, absolute, output, offsets, parents, written, count, g, stack);
    more, input' := false, input;
    if !ok { return; }
    if end == |value| { return; }
    input' := NextSegment(value, end + 1, g, pushed);
    more := true;
  }

  /** The loop over the segments. */
  method Fill(value: string, output: array<char>, written0: nat, input0: nat, absolute: bool, ghost g: Goal)
    returns (ok: bool, written: nat)
    requires |value| <= LIMIT && output.Length == LIMIT + 1 && g.slack <= 1 && absolute == g.absolute
    requires written0 <= LIMIT && output[..written0] == g.prefix && Midway(value, g, input0, [])
    modifies output
    ensures ok <==> |Render(g.prefix, g.segments)| <= LIMIT
    ensures ok ==> written <= LIMIT && output[..written] == Render(g.prefix, g.segments)
  {
    var offsets, parents := new nat[OFFSETS], new bool[OFFSETS](_ => false);
    var input, count: nat, more := input0, 0, true;
    ghost var stack := [];
    written, ok := written0, true;
    assert output[..][..written] == output[..written];
    while more
      invariant more ==> written <= LIMIT && Midway(value, g, input, stack)
      invariant more ==> Tracks(g.prefix, stack, output[..], written, offsets[..], parents[..], count)
      invariant !more ==> (ok <==> |Render(g.prefix, g.segments)| <= LIMIT)
      invariant !more && ok ==> written <= LIMIT && output[..written] == Render(g.prefix, g.segments)
      decreases more, |value| - input
    {
      more, ok, written, count, input, stack :=
        Pass(value, input, absolute, output, offsets, parents, written, count, g, stack);
    }
  }

  /** The in-place normaliser computes the normal form, and accepts exactly when it fits. */
  method Normalize(value: string, output: array<char>) returns (ok: bool, length: nat)
    requires |value| <= LIMIT && output.Length == LIMIT + 1
    modifies output
    ensures ok <==> |Normalized(value)| <= LIMIT
    ensures ok ==> length == |Normalized(value)| && output[..length] == Normalized(value)
  {
    var written, input, absolute := WritePrefix(value, output);
    ghost var g := GoalOf(value);
    assert Midway(value, g, input, []);
    ok, length := Fill(value, output, written, input, absolute, g);
  }

  // ----- the limit

  /** Segments and the separators between them. */
  function Length(segments: seq<string>): nat {
    if segments == [] then 0
    else |segments[0]| + if |segments| == 1 then 0 else 1 + Length(segments[1..])
  }

  lemma {:induction false} SplitLength(s: string)
    ensures Length(Split(s)) == |s|
  {
    if s != "" {
      SplitLength(s[1..]);
      var rest := Split(s[1..]);
      if IsSeparator(s[0]) {
        assert ([""] + rest)[1..] == rest;
      } else {
        assert ([[s[0]] + rest[0]] + rest[1..])[1..] == rest[1..];
      }
    }
  }

  /** Resolving needs no more room than the segments take. */
  lemma {:induction false} ResolveAffordable(prefix: string, stack: seq<string>, segments: seq<string>, absolute: bool,
                                             used: nat, slack: nat, result: seq<string>)
    requires segments != [] && AllAffordable(prefix, stack, used, slack) && result == Resolve(stack, segments, absolute)
    ensures |Render(prefix, result)| <= used + Length(segments) + slack
    decreases |segments|
  {
    var segment, pushed := segments[0], Push(stack, segments[0], absolute);
    AffordOne(prefix, stack, segment, absolute, used, slack, pushed);
    ResolveHead(stack, segments, absolute, pushed);
    LengthHead(segments);
    if |segments| > 1 {
      ResolveAffordable(prefix, pushed, segments[1..], absolute, used + |segment| + 1, slack, result);
    }
  }

  lemma AffordOne(prefix: string, stack: seq<string>, segment: string, absolute: bool, used: nat, slack: nat, pushed: seq<string>)
    requires AllAffordable(prefix, stack, used, slack) && pushed == Push(stack, segment, absolute)
    ensures |Render(prefix, pushed)| <= used + |segment| + slack
    ensures AllAffordable(prefix, pushed, used + |segment| + 1, slack)
  {
    PushPushes(stack, segment, absolute);
    PushAffordable(prefix, stack, segment, pushed, used, slack);
  }

  lemma LengthHead(segments: seq<string>)
    requires segments != []
    ensures Length(segments) == |segments[0]| + if |segments| == 1 then 0 else 1 + Length(segments[1..])
  {
  }

  lemma ResolveHead(stack: seq<string>, segments: seq<string>, absolute: bool, pushed: seq<string>)
    requires segments != [] && pushed == Push(stack, segments[0], absolute)
    ensures Resolve(stack, segments, absolute) == Resolve(pushed, segments[1..], absolute)
    ensures |segments| == 1 ==> Resolve(stack, segments, absolute) == pushed
  {
  }

  /** Only a drive without a root can outgrow its input, and by one character. */
  lemma OutputBounded(value: string)
    ensures |Normalized(value)| <= |value| + Slack(value)
  {
    var body, p := Body(value), Prefix(value);
    if HasRoot(body) {
      SplitSkips(body, [], true);
      if HasRoot(body[1..]) && !HasDrive(value) {
        SplitSkips(body[1..], [], true);
        BodyBounded(p, body[1..][1..], true, 2, 0);
      } else {
        BodyBounded(p, body[1..], true, |value| - |body| + 1, 0);
      }
    } else {
      BodyBounded(p, body, false, |value| - |body|, Slack(value));
    }
  }

  lemma BodyBounded(prefix: string, body: string, absolute: bool, used: nat, slack: nat)
    requires |prefix| + (if NeedsSlash(prefix) then 1 else 0) <= used + slack
    ensures |Render(prefix, Resolve([], Split(body), absolute))| <= used + |body| + slack
  {
    SplitLength(body);
    ResolveAffordable(prefix, [], Split(body), absolute, used, slack, Resolve([], Split(body), absolute));
  }
}
