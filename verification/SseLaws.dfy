/** What a stitched message says, read off the stream from its beginning (libvitriol/rebis_shim.py,
    `parse_sse_stream` and `consume_relay_stream`). */
module SseLaws {
  import opened SseStitching

  // ---- A call ----

  /** The names of the fragments of one index, in stream order. */
  function NamesOf(fs: seq<Fragment>, i: int): string {
    if fs == [] then "" else (if fs[0].index == i then fs[0].name else "") + NamesOf(fs[1..], i)
  }

  function ArgumentsOf(fs: seq<Fragment>, i: int): string {
    if fs == [] then "" else (if fs[0].index == i then fs[0].arguments else "") + ArgumentsOf(fs[1..], i)
  }

  /** The last id that the fragments of one index give; empty if they give none. */
  ghost predicate IsLastId(fs: seq<Fragment>, i: int, id: string) {
    if id == "" then forall k :: 0 <= k < |fs| && fs[k].index == i ==> fs[k].id == ""
    else exists k :: 0 <= k < |fs| && fs[k].index == i && fs[k].id == id && NoIdAfter(fs, i, k)
  }

  ghost predicate NoIdAfter(fs: seq<Fragment>, i: int, k: int) {
    forall j :: k < j < |fs| && 0 <= j && fs[j].index == i ==> fs[j].id == ""
  }

  lemma Regroup(a: string, b: string, c: string)
    ensures a + (b + c) == (a + b) + c
  {
  }

  lemma {:induction false} NamesSnoc(fs: seq<Fragment>, f: Fragment, i: int)
    ensures NamesOf(fs + [f], i) == NamesOf(fs, i) + if f.index == i then f.name else ""
    ensures ArgumentsOf(fs + [f], i) == ArgumentsOf(fs, i) + if f.index == i then f.arguments else ""
  {
    var all := fs + [f];
    if fs == [] {
      assert all == [f] && [f][1..] == [];
      assert NamesOf([f][1..], i) == "" && ArgumentsOf([f][1..], i) == "";
      assert NamesOf(all, i) == (if f.index == i then f.name else "") + "";
      assert ArgumentsOf(all, i) == (if f.index == i then f.arguments else "") + "";
    } else {
      NamesSnoc(fs[1..], f, i);
      assert all[1..] == fs[1..] + [f] && all[0] == fs[0];
      Regroup(if fs[0].index == i then fs[0].name else "", NamesOf(fs[1..], i), if f.index == i then f.name else "");
      Regroup(if fs[0].index == i then fs[0].arguments else "", ArgumentsOf(fs[1..], i), if f.index == i then f.arguments else "");
    }
  }

  lemma LastIdSnoc(fs: seq<Fragment>, f: Fragment, i: int, id: string)
    requires IsLastId(fs, i, id)
    ensures IsLastId(fs + [f], i, if f.index == i && f.id != "" then f.id else id)
  {
    var all := fs + [f];
    assert all[|fs|] == f && forall k :: 0 <= k < |fs| ==> all[k] == fs[k];
    if f.index == i && f.id != "" {
      assert NoIdAfter(all, i, |fs|);
    } else if id != "" {
      var k :| 0 <= k < |fs| && fs[k].index == i && fs[k].id == id && NoIdAfter(fs, i, k);
      assert all[k] == fs[k] && NoIdAfter(all, i, k);
    }
  }

  /** Main result on a call: it exists for the indices that occur; its name and arguments are those of its own
      fragments put together in stream order, and its id is the last one given. */
  lemma {:induction false} SlotMeans(fs: seq<Fragment>, i: int)
    ensures i in StitchAll(fs) <==> exists k :: 0 <= k < |fs| && fs[k].index == i
    ensures i in StitchAll(fs) ==>
              var call := StitchAll(fs)[i];
              call.name == NamesOf(fs, i) && call.arguments == ArgumentsOf(fs, i) && IsLastId(fs, i, call.id)
    ensures i !in StitchAll(fs) ==> NamesOf(fs, i) == "" && ArgumentsOf(fs, i) == "" && IsLastId(fs, i, "")
    decreases |fs|
  {
    if fs != [] {
      hide NamesOf, ArgumentsOf, IsLastId;
      var before, f := fs[..|fs| - 1], fs[|fs| - 1];
      assert fs == before + [f];
      SlotMeans(before, i);
      NamesSnoc(before, f, i);
      LastIdSnoc(before, f, i, if i in StitchAll(before) then StitchAll(before)[i].id else "");
      SnocStitch(before, f);
      IndexSnoc(before, f, i);
      EmptyRight(NamesOf(before, i));
      EmptyRight(ArgumentsOf(before, i));
      assert "" + f.name == f.name && "" + f.arguments == f.arguments;
    }
  }

  lemma EmptyRight(s: string)
    ensures s + "" == s
  {
  }

  lemma IndexSnoc(fs: seq<Fragment>, f: Fragment, i: int)
    ensures (exists k :: 0 <= k < |fs + [f]| && (fs + [f])[k].index == i) <==> (exists k :: 0 <= k < |fs| && fs[k].index == i) || f.index == i
  {
    var all := fs + [f];
    assert all[|fs|] == f && forall k :: 0 <= k < |fs| ==> all[k] == fs[k];
  }

  // ---- The calls ----

  ghost predicate Ascends(ks: seq<int>) {
    forall a, b :: 0 <= a < b < |ks| ==> ks[a] < ks[b]
  }

  /** Sets have one ascending list. */
  lemma {:induction false} OneAscendingList(xs: seq<int>, ys: seq<int>)
    requires Ascends(xs) && Ascends(ys) && forall k :: k in xs <==> k in ys
    ensures xs == ys
  {
    if xs == [] {
      if |ys| > 0 {
        NoMembers(xs, ys);
      }
    } else {
      assert xs[0] in xs && xs[0] in ys;
      assert ys[0] in ys && ys[0] in xs;
      SameFirst(xs, ys);
      forall k
        ensures k in xs[1..] <==> k in ys[1..]
      {
        RestMembers(xs, k);
        RestMembers(ys, k);
      }
      OneAscendingList(xs[1..], ys[1..]);
      assert xs == [xs[0]] + xs[1..] && ys == [ys[0]] + ys[1..];
    }
  }

  lemma NoMembers(xs: seq<int>, ys: seq<int>)
    requires |ys| > 0 && forall k :: k in ys ==> k in xs
    ensures |xs| > 0
  {
    var z := ys[0];
    assert z in xs;
  }

  lemma SameFirst(xs: seq<int>, ys: seq<int>)
    requires Ascends(xs) && Ascends(ys) && xs != [] && ys != [] && xs[0] in ys && ys[0] in xs
    ensures xs[0] == ys[0]
  {
  }

  lemma RestMembers(xs: seq<int>, k: int)
    requires Ascends(xs) && xs != []
    ensures k in xs[1..] <==> k in xs && k != xs[0]
  {
    assert forall j :: 1 <= j < |xs| ==> xs[j] == xs[1..][j - 1] && xs[0] < xs[j];
  }

  /** Main result on the order of calls: they come by ascending index. */
  lemma CallsAscend(calls: map<int, Call>, ks: seq<int>)
    requires Ascends(ks) && forall k :: k in ks <==> k in calls
    ensures |ToolCalls(calls)| == |ks| && forall j :: 0 <= j < |ks| ==> ks[j] in calls && ToolCalls(calls)[j] == calls[ks[j]]
  {
    OneAscendingList(Sorted(calls.Keys), ks);
  }

  // ---- The message ----

  function Texts(cs: seq<Choice>): string {
    if cs == [] then "" else cs[0].content + Texts(cs[1..])
  }

  function Thoughts(cs: seq<Choice>): string {
    if cs == [] then "" else cs[0].reasoning + Thoughts(cs[1..])
  }

  lemma {:induction false} TextsSnoc(cs: seq<Choice>, c: Choice)
    ensures Texts(cs + [c]) == Texts(cs) + c.content && Thoughts(cs + [c]) == Thoughts(cs) + c.reasoning
  {
    var all := cs + [c];
    if cs == [] {
      assert all == [c] && [c][1..] == [];
      assert Texts([c][1..]) == "" && Thoughts([c][1..]) == "";
      EmptyRight(c.content);
      EmptyRight(c.reasoning);
    } else {
      TextsSnoc(cs[1..], c);
      assert all[1..] == cs[1..] + [c] && all[0] == cs[0];
      Regroup(cs[0].content, Texts(cs[1..]), c.content);
      Regroup(cs[0].reasoning, Thoughts(cs[1..]), c.reasoning);
    }
  }

  /** The last reason given; empty if none is. */
  ghost predicate IsLastFinish(cs: seq<Choice>, finish: string) {
    if finish == "" then forall k :: 0 <= k < |cs| ==> cs[k].finish == ""
    else exists k :: 0 <= k < |cs| && cs[k].finish == finish && NoFinishAfter(cs, k)
  }

  ghost predicate NoFinishAfter(cs: seq<Choice>, k: int) {
    forall j :: k < j < |cs| && 0 <= j ==> cs[j].finish == ""
  }

  lemma FinishSnoc(cs: seq<Choice>, c: Choice, finish: string)
    requires IsLastFinish(cs, finish)
    ensures IsLastFinish(cs + [c], if c.finish != "" then c.finish else finish)
  {
    var all := cs + [c];
    assert all[|cs|] == c && forall k :: 0 <= k < |cs| ==> all[k] == cs[k];
    if c.finish != "" {
      assert NoFinishAfter(all, |cs|);
    } else if finish != "" {
      var k :| 0 <= k < |cs| && cs[k].finish == finish && NoFinishAfter(cs, k);
      assert all[k] == cs[k] && NoFinishAfter(all, k);
    }
  }

  lemma {:induction false} ChoicesSay(cs: seq<Choice>)
    ensures Content(cs) == Texts(cs) && Reasoning(cs) == Thoughts(cs) && IsLastFinish(cs, Finish(cs))
  {
    if cs != [] {
      hide Texts, Thoughts, IsLastFinish;
      var before, c := cs[..|cs| - 1], cs[|cs| - 1];
      assert cs == before + [c];
      ChoicesSay(before);
      TextsSnoc(before, c);
      FinishSnoc(before, c, Finish(before));
    }
  }

  /** Main result on a message: the texts put together in stream order, the last reason given, and the calls by
      ascending index, each saying what its own fragments say. */
  lemma MessageMeans(lines: seq<Line>, ks: seq<int>)
    requires Ascends(ks)
    requires forall i :: i in ks <==> exists k :: 0 <= k < |Fragments(Choices(lines))| && Fragments(Choices(lines))[k].index == i
    ensures var m, cs, fs := StreamMessage(lines), Choices(lines), Fragments(Choices(lines));
            && m.content == Texts(cs) && IsLastFinish(cs, m.finish) && |m.toolCalls| == |ks|
            && forall j :: 0 <= j < |ks| ==>
                 && m.toolCalls[j].name == NamesOf(fs, ks[j]) && m.toolCalls[j].arguments == ArgumentsOf(fs, ks[j])
                 && IsLastId(fs, ks[j], m.toolCalls[j].id)
  {
    hide Choices, Content, Fragments, Finish, StitchAll, ToolCalls, NamesOf, ArgumentsOf, IsLastId, IsLastFinish, Texts;
    var cs, fs := Choices(lines), Fragments(Choices(lines));
    ChoicesSay(cs);
    forall i
      ensures i in StitchAll(fs) <==> i in ks
    {
      SlotMeans(fs, i);
    }
    CallsAscend(StitchAll(fs), ks);
    forall j | 0 <= j < |ks|
      ensures ToolCalls(StitchAll(fs))[j] == StitchAll(fs)[ks[j]]
      ensures StitchAll(fs)[ks[j]].name == NamesOf(fs, ks[j]) && StitchAll(fs)[ks[j]].arguments == ArgumentsOf(fs, ks[j])
      ensures IsLastId(fs, ks[j], StitchAll(fs)[ks[j]].id)
    {
      SlotMeans(fs, ks[j]);
    }
  }

  // ---- Lines ----

  predicate NoMark(lines: seq<Line>) {
    forall i :: 0 <= i < |lines| ==> !lines[i].Done?
  }

  /** Reading on: lines without an end mark are read one after the other, and nothing behind a mark. */
  lemma {:induction false} LinesAppend(a: seq<Line>, b: seq<Line>)
    requires NoMark(a)
    ensures Choices(a + b) == Choices(a) + Choices(b) && Relayed(a + b) == Relayed(a) + Relayed(b)
    ensures Usage(a + b) == if Usage(b) != "" then Usage(b) else Usage(a)
  {
    if a == [] {
      assert a + b == b;
      assert Choices([]) + Choices(b) == Choices(b) && Relayed([]) + Relayed(b) == Relayed(b);
    } else {
      var rest, all := a[1..], a + b;
      LinesAppend(rest, b);
      assert all[1..] == rest + b && all[0] == a[0];
      var cs, ts := if a[0].Chunk? then a[0].choices else [], if a[0].Chunk? then [a[0].text] else [];
      assert cs + (Choices(rest) + Choices(b)) == (cs + Choices(rest)) + Choices(b);
      assert ts + (Relayed(rest) + Relayed(b)) == (ts + Relayed(rest)) + Relayed(b);
      LaterUsageMeans(if a[0].Chunk? then a[0].usage else "", rest + b);
      LaterUsageMeans(if a[0].Chunk? then a[0].usage else "", rest);
      LaterUsageMeans("", all);
      LaterUsageMeans("", a);
    }
  }

  lemma {:induction false} LaterUsageMeans(u: string, lines: seq<Line>)
    ensures LaterUsage(u, lines) == if Usage(lines) != "" then Usage(lines) else u
    decreases |lines|
  {
    if lines != [] && !lines[0].Done? {
      var v := if lines[0].Chunk? then lines[0].usage else "";
      LaterUsageMeans(if v != "" then v else u, lines[1..]);
      LaterUsageMeans(v, lines[1..]);
    }
  }

  /** Single lines, and the mark: nothing behind it counts. */
  lemma OneLine(line: Line, after: seq<Line>)
    ensures Choices([]) == [] && Relayed([]) == [] && Usage([]) == ""
    ensures Choices([Done] + after) == [] && Relayed([Done] + after) == [END_MARK] && Usage([Done] + after) == ""
    ensures line.Noise? ==> Choices([line]) == [] && Relayed([line]) == [] && Usage([line]) == ""
    ensures line.Chunk? ==> Choices([line]) == line.choices && Relayed([line]) == [line.text] && Usage([line]) == line.usage
  {
    assert [line][1..] == [];
    assert line.Chunk? ==> line.choices + [] == line.choices && [line.text] + [] == [line.text];
    assert Choices([]) == [] && Relayed([]) == [];
    assert line.Chunk? ==> LaterUsage(line.usage, []) == line.usage && Usage([line]) == LaterUsage(line.usage, [line][1..]);
  }
}
