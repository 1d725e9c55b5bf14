/** Putting a streamed chat completion back together (libvitriol/rebis_shim.py,
    `parse_sse_stream` and `consume_relay_stream`).

    Lines are already decoded: a line that is no data or no JSON is `Noise`. The empty string stands
    for a field that is missing, null or empty, which the source treats alike. */
module SseStitching {

  datatype Fragment = Fragment(index: int, id: string, name: string, arguments: string)

  datatype Choice = Choice(finish: string, content: string, reasoning: string, calls: seq<Fragment>)

  datatype Line = Noise | Done | Chunk(text: string, usage: string, choices: seq<Choice>)

  datatype Call = Call(id: string, name: string, arguments: string)

  datatype Message = Message(content: string, toolCalls: seq<Call>, finish: string)

  // ---- What a stream says ----

  /** The choices before the end mark. */
  function Choices(lines: seq<Line>): seq<Choice> {
    if lines == [] || lines[0].Done? then []
    else (if lines[0].Chunk? then lines[0].choices else []) + Choices(lines[1..])
  }

  function Content(cs: seq<Choice>): string {
    if cs == [] then "" else Content(cs[..|cs| - 1]) + cs[|cs| - 1].content
  }

  function Reasoning(cs: seq<Choice>): string {
    if cs == [] then "" else Reasoning(cs[..|cs| - 1]) + cs[|cs| - 1].reasoning
  }

  function Fragments(cs: seq<Choice>): seq<Fragment> {
    if cs == [] then [] else Fragments(cs[..|cs| - 1]) + cs[|cs| - 1].calls
  }

  /** The last reason given. */
  function Finish(cs: seq<Choice>): string {
    if cs == [] then ""
    else if cs[|cs| - 1].finish != "" then cs[|cs| - 1].finish else Finish(cs[..|cs| - 1])
  }

  // ---- Stitching ----

  function Fill(call: Call, f: Fragment): Call {
    Call(if f.id != "" then f.id else call.id, call.name + f.name, call.arguments + f.arguments)
  }

  /** One fragment goes into the slot of its index, which is made if it is not there. */
  function Stitch(calls: map<int, Call>, f: Fragment): map<int, Call> {
    var slot := if f.index in calls then calls[f.index] else Call("", "", "");
    calls[f.index := Fill(slot, f)]
  }

  function StitchAll(fs: seq<Fragment>): map<int, Call> {
    if fs == [] then map[] else Stitch(StitchAll(fs[..|fs| - 1]), fs[|fs| - 1])
  }

  /** The fragments of one index, in order. */
  function Of(fs: seq<Fragment>, i: int): seq<Fragment> {
    if fs == [] then []
    else Of(fs[..|fs| - 1], i) + if fs[|fs| - 1].index == i then [fs[|fs| - 1]] else []
  }

  /** What a run of fragments of one call amounts to: the last id, and names and arguments joined. */
  function Merged(fs: seq<Fragment>): Call {
    if fs == [] then Call("", "", "") else Fill(Merged(fs[..|fs| - 1]), fs[|fs| - 1])
  }

  /** A slot holds what the fragments of its own index amount to, whatever came in between. */
  lemma {:induction false} SlotIsMerged(fs: seq<Fragment>, i: int)
    ensures i in StitchAll(fs) <==> Of(fs, i) != []
    ensures i in StitchAll(fs) ==> StitchAll(fs)[i] == Merged(Of(fs, i))
  {
    if fs != [] {
      var f, before := fs[|fs| - 1], fs[..|fs| - 1];
      SlotIsMerged(before, i);
      if f.index == i {
        assert Of(fs, i)[..|Of(before, i)|] == Of(before, i);
        assert Of(before, i) == [] ==> Merged(Of(before, i)) == Call("", "", "");
      } else {
        assert Of(before, i) + [] == Of(before, i);
      }
    }
  }

  // ---- Sorted by index ----

  lemma SomeMember(s: set<int>)
    ensures s != {} ==> exists x :: x in s
  {
    assert (forall x :: x !in s) ==> s == {};
  }

  lemma FindMinimum(s: set<int>) returns (m: int)
    requires s != {}
    ensures m in s && forall x :: x in s ==> m <= x
  {
    SomeMember(s);
    m :| m in s;
    var rest := s - {m};
    assert forall x :: x in s ==> x == m || x in rest;
    if rest != {} {
      var n := FindMinimum(rest);
      if n < m {
        m := n;
      }
    }
  }

  function Minimum(s: set<int>): (m: int)
    requires s != {}
    ensures m in s && forall x :: x in s ==> m <= x
  {
    assert exists m :: m in s && forall x :: x in s ==> m <= x by {
      var m := FindMinimum(s);
    }
    var m :| m in s && forall x :: x in s ==> m <= x;
    m
  }

  function Sorted(s: set<int>): (r: seq<int>)
    ensures forall x :: x in r <==> x in s
    ensures forall i, j :: 0 <= i < j < |r| ==> r[i] < r[j]
  {
    if s == {} then []
    else
      var m := Minimum(s);
      [m] + Sorted(s - {m})
  }

  /** The calls in the order of their indices. */
  function ToolCalls(calls: map<int, Call>): (r: seq<Call>)
    ensures |r| == |Sorted(calls.Keys)|
  {
    var keys := Sorted(calls.Keys);
    seq(|keys|, i requires 0 <= i < |keys| => assert keys[i] in calls.Keys; calls[keys[i]])
  }

  function StreamMessage(lines: seq<Line>): Message {
    var cs := Choices(lines);
    Message(Content(cs), ToolCalls(StitchAll(Fragments(cs))), Finish(cs))
  }

  // ---- Reordering a stream ----

  /** The smallest things a stream says: a piece of content or a fragment of a call. */
  datatype Atom = Piece(text: string) | Part(fragment: Fragment)

  datatype Track = Text | Tool(index: int)

  function TrackOf(x: Atom): Track {
    match x
    case Piece(_) => Text
    case Part(f) => Tool(f.index)
  }

  function Parts(fs: seq<Fragment>): (r: seq<Atom>)
    ensures |r| == |fs|
  {
    if fs == [] then [] else Parts(fs[..|fs| - 1]) + [Part(fs[|fs| - 1])]
  }

  function Said(c: Choice): seq<Atom> {
    (if c.content != "" then [Piece(c.content)] else []) + Parts(c.calls)
  }

  function Atoms(cs: seq<Choice>): seq<Atom> {
    if cs == [] then [] else Atoms(cs[..|cs| - 1]) + Said(cs[|cs| - 1])
  }

  /** What is said on one track, in order. */
  function On(xs: seq<Atom>, t: Track): seq<Atom> {
    if xs == [] then []
    else On(xs[..|xs| - 1], t) + if TrackOf(xs[|xs| - 1]) == t then [xs[|xs| - 1]] else []
  }

  /** `b` is `a` with atom `i` moved to place `to[i]`, and no two atoms of a track change their order. */
  ghost predicate Reordering(a: seq<Atom>, b: seq<Atom>, to: seq<nat>) {
    && |a| == |b| == |to|
    && (forall i :: 0 <= i < |a| ==> to[i] < |b| && b[to[i]] == a[i])
    && (forall j: nat :: j < |b| ==> j in to)
    && (forall i, j :: 0 <= i < j < |a| ==> to[i] != to[j])
    && (forall i, j :: 0 <= i < j < |a| && TrackOf(a[i]) == TrackOf(a[j]) ==> to[i] < to[j])
  }

  lemma {:induction false} OnAppend(a: seq<Atom>, b: seq<Atom>, t: Track)
    ensures On(a + b, t) == On(a, t) + On(b, t)
    decreases |b|
  {
    if b == [] {
      assert a + b == a;
    } else {
      var init := b[..|b| - 1];
      assert (a + b)[..|a + b| - 1] == a + init;
      OnAppend(a, init, t);
    }
  }

  predicate Apart(xs: seq<Atom>, t: Track) {
    forall i :: 0 <= i < |xs| ==> TrackOf(xs[i]) != t
  }

  lemma {:induction false} OnOther(xs: seq<Atom>, t: Track)
    requires Apart(xs, t)
    ensures On(xs, t) == []
  {
    if xs != [] {
      OnOther(xs[..|xs| - 1], t);
    }
  }

  lemma OnOne(x: Atom, t: Track)
    ensures On([x], t) == if TrackOf(x) == t then [x] else []
  {
    assert [x][..0] == [];
  }

  /** The moves that are left when the last atom of `a` is taken out of both. */
  function Closing(to: seq<nat>): (r: seq<nat>)
    requires to != []
    ensures |r| == |to| - 1
  {
    var q := to[|to| - 1];
    seq(|to| - 1, i requires 0 <= i < |to| - 1 => if to[i] <= q then to[i] else to[i] - 1)
  }

  lemma TakeOut(a: seq<Atom>, b: seq<Atom>, to: seq<nat>)
    requires Reordering(a, b, to) && a != []
    ensures var q := to[|to| - 1];
            q < |b| && Reordering(a[..|a| - 1], b[..q] + b[q + 1..], Closing(to))
  {
    hide TrackOf;
    var n, q := |a| - 1, to[|to| - 1];
    assert forall i :: 0 <= i < n ==> to[i] != q;
    ClosingMoves(a, b, to);
    forall j: nat | j < |b| - 1
      ensures j in Closing(to)
    {
      ClosingReaches(a, b, to, j);
    }
  }

  lemma ClosingMoves(a: seq<Atom>, b: seq<Atom>, to: seq<nat>)
    requires Reordering(a, b, to) && a != []
    ensures var q, to' := to[|to| - 1], Closing(to);
            && (forall i :: 0 <= i < |a| - 1 ==> to'[i] < |b| - 1 && (b[..q] + b[q + 1..])[to'[i]] == a[i])
            && (forall i, j :: 0 <= i < |a| - 1 && 0 <= j < |a| - 1 && to[i] < to[j] ==> to'[i] < to'[j])
  {
    hide TrackOf;
    var q := to[|to| - 1];
    assert forall i :: 0 <= i < |a| - 1 ==> to[i] != q;
  }

  lemma ClosingReaches(a: seq<Atom>, b: seq<Atom>, to: seq<nat>, j: nat)
    requires Reordering(a, b, to) && a != [] && j < |b| - 1
    ensures j in Closing(to)
  {
    hide TrackOf;
    var q := to[|to| - 1];
    var k := if j < q then j else j + 1;
    assert k in to;
    var i :| 0 <= i < |to| && to[i] == k;
    assert Closing(to)[i] == j;
  }

  /** A reordering says the same on every track. */
  lemma {:induction false} ReorderingKeepsTracks(a: seq<Atom>, b: seq<Atom>, to: seq<nat>, t: Track)
    requires Reordering(a, b, to)
    ensures On(a, t) == On(b, t)
    decreases |a|
  {
    hide *;
    SameLength(a, b, to);
    if a == [] {
      assert b == [];
    } else {
      var n, q := |a| - 1, to[|to| - 1];
      TakeOut(a, b, to);
      NoneAfter(a, b, to);
      ReorderingKeepsTracks(a[..n], b[..q] + b[q + 1..], Closing(to), t);
      OnPutBack(a[..n], a[n], b[..q], b[q + 1..], t);
      assert a == a[..n] + [a[n]];
      assert b == b[..q] + [a[n]] + b[q + 1..];
    }
  }

  lemma SameLength(a: seq<Atom>, b: seq<Atom>, to: seq<nat>)
    requires Reordering(a, b, to)
    ensures |a| == |b| == |to|
  {
  }

  lemma OnPutBack(a: seq<Atom>, x: Atom, left: seq<Atom>, right: seq<Atom>, t: Track)
    requires On(a, t) == On(left + right, t) && Apart(right, TrackOf(x))
    ensures On(a + [x], t) == On(left + [x] + right, t)
  {
    hide On, Apart;
    OnAppend(a, [x], t);
    OnAppend(left, right, t);
    OnAppend(left, [x], t);
    OnAppend(left + [x], right, t);
    OnOne(x, t);
    if TrackOf(x) == t {
      OnOther(right, t);
    }
  }

  /** The last atom of a track is its last atom in the reordering too. */
  lemma NoneAfter(a: seq<Atom>, b: seq<Atom>, to: seq<nat>)
    requires Reordering(a, b, to) && a != []
    ensures var q := to[|to| - 1];
            q < |b| && b[q] == a[|a| - 1] && Apart(b[q + 1..], TrackOf(a[|a| - 1]))
  {
    var q := to[|to| - 1];
    var right := b[q + 1..];
    forall j | 0 <= j < |right|
      ensures TrackOf(right[j]) != TrackOf(a[|a| - 1])
    {
      assert (q + 1 + j) in to;
      var i :| 0 <= i < |to| && to[i] == q + 1 + j;
      assert right[j] == a[i];
    }
  }

  /** The content is the pieces on the text track, joined. */
  function Joined(xs: seq<Atom>): string {
    if xs == [] then ""
    else Joined(xs[..|xs| - 1]) + if xs[|xs| - 1].Piece? then xs[|xs| - 1].text else ""
  }

  /** The fragments among some atoms. */
  function Inside(xs: seq<Atom>): seq<Fragment> {
    if xs == [] then []
    else Inside(xs[..|xs| - 1]) + if xs[|xs| - 1].Part? then [xs[|xs| - 1].fragment] else []
  }

  lemma {:induction false} OfParts(fs: seq<Fragment>, i: int)
    ensures Inside(On(Parts(fs), Tool(i))) == Of(fs, i) && On(Parts(fs), Text) == []
  {
    if fs != [] {
      hide Inside, On;
      var init, f := fs[..|fs| - 1], fs[|fs| - 1];
      OfParts(init, i);
      OnAppend(Parts(init), [Part(f)], Tool(i));
      OnAppend(Parts(init), [Part(f)], Text);
      OnOne(Part(f), Tool(i));
      OnOne(Part(f), Text);
      InsideSnoc(On(Parts(init), Tool(i)), Part(f));
      assert On(Parts(init), Tool(i)) + [] == On(Parts(init), Tool(i));
    } else {
      NothingOn(Text);
    }
  }

  lemma InsideSnoc(xs: seq<Atom>, x: Atom)
    ensures Inside(xs + [x]) == Inside(xs) + if x.Part? then [x.fragment] else []
    ensures Joined(xs + [x]) == Joined(xs) + if x.Piece? then x.text else ""
  {
    assert (xs + [x])[..|xs|] == xs;
  }

  lemma {:induction false} InsideAppend(a: seq<Atom>, b: seq<Atom>)
    ensures Inside(a + b) == Inside(a) + Inside(b)
    decreases |b|
  {
    if b == [] {
      assert a + b == a;
    } else {
      InsideAppend(a, b[..|b| - 1]);
      assert (a + b)[..|a + b| - 1] == a + b[..|b| - 1];
    }
  }

  lemma {:induction false} OfAppend(a: seq<Fragment>, b: seq<Fragment>, i: int)
    ensures Of(a + b, i) == Of(a, i) + Of(b, i)
    decreases |b|
  {
    if b == [] {
      assert a + b == a;
    } else {
      OfAppend(a, b[..|b| - 1], i);
      assert (a + b)[..|a + b| - 1] == a + b[..|b| - 1];
    }
  }

  lemma SaidOn(c: Choice, i: int)
    ensures On(Said(c), Text) == if c.content != "" then [Piece(c.content)] else []
    ensures Inside(On(Said(c), Tool(i))) == Of(c.calls, i)
  {
    hide On, Inside, Of, Parts;
    var head := if c.content != "" then [Piece(c.content)] else [];
    OnAppend(head, Parts(c.calls), Text);
    OnAppend(head, Parts(c.calls), Tool(i));
    OfParts(c.calls, i);
    NothingOn(Text);
    NothingOn(Tool(i));
    OnOne(Piece(c.content), Text);
    OnOne(Piece(c.content), Tool(i));
    assert On(Said(c), Tool(i)) == [] + On(Parts(c.calls), Tool(i)) == On(Parts(c.calls), Tool(i));
  }

  lemma NothingOn(t: Track)
    ensures On([], t) == []
  {
  }

  /** Content and the fragments of an index are read off their own track. */
  lemma {:induction false} TracksSay(cs: seq<Choice>, i: int)
    ensures Content(cs) == Joined(On(Atoms(cs), Text))
    ensures Of(Fragments(cs), i) == Inside(On(Atoms(cs), Tool(i)))
  {
    hide *;
    if cs == [] {
      NoTracks(i);
    } else {
      TracksUnfold(cs);
      var init, c := cs[..|cs| - 1], cs[|cs| - 1];
      TracksSay(init, i);
      SaidOn(c, i);
      OnAppend(Atoms(init), Said(c), Text);
      OnAppend(Atoms(init), Said(c), Tool(i));
      OfAppend(Fragments(init), c.calls, i);
      InsideAppend(On(Atoms(init), Tool(i)), On(Said(c), Tool(i)));
      InsideSnoc(On(Atoms(init), Text), Piece(c.content));
      assert On(Atoms(init), Text) + [] == On(Atoms(init), Text);
    }
  }

  lemma NoTracks(i: int)
    ensures Content([]) == Joined(On(Atoms([]), Text)) && Of(Fragments([]), i) == Inside(On(Atoms([]), Tool(i)))
  {
  }

  lemma TracksUnfold(cs: seq<Choice>)
    requires cs != []
    ensures var init, c := cs[..|cs| - 1], cs[|cs| - 1];
            Atoms(cs) == Atoms(init) + Said(c) && Content(cs) == Content(init) + c.content && Fragments(cs) == Fragments(init) + c.calls
  {
  }

  /** Main result: a stream whose pieces and fragments are reordered in any way that keeps the order
      within the content and within each tool index gives the same content and tool calls. */
  lemma InterleavingIrrelevant(a: seq<Line>, b: seq<Line>, to: seq<nat>)
    requires Reordering(Atoms(Choices(a)), Atoms(Choices(b)), to)
    ensures StreamMessage(a).content == StreamMessage(b).content
    ensures StreamMessage(a).toolCalls == StreamMessage(b).toolCalls
  {
    hide *;
    var x, y := Choices(a), Choices(b);
    TracksSay(x, 0);
    TracksSay(y, 0);
    ReorderingKeepsTracks(Atoms(x), Atoms(y), to, Text);
    var f, g := Fragments(x), Fragments(y);
    forall i
      ensures Of(f, i) == Of(g, i)
    {
      TracksSay(x, i);
      TracksSay(y, i);
      ReorderingKeepsTracks(Atoms(x), Atoms(y), to, Tool(i));
    }
    SameSlots(f, g);
    MessageOf(a);
    MessageOf(b);
  }

  lemma MessageOf(lines: seq<Line>)
    ensures var cs := Choices(lines); var m := StreamMessage(lines);
            m.content == Content(cs) && m.toolCalls == ToolCalls(StitchAll(Fragments(cs)))
  {
  }

  lemma SameSlots(f: seq<Fragment>, g: seq<Fragment>)
    requires forall i :: Of(f, i) == Of(g, i)
    ensures StitchAll(f) == StitchAll(g)
  {
    hide StitchAll, Of, Merged;
    forall i
      ensures i in StitchAll(f) <==> i in StitchAll(g)
      ensures i in StitchAll(f) ==> StitchAll(f)[i] == StitchAll(g)[i]
    {
      SlotIsMerged(f, i);
      SlotIsMerged(g, i);
    }
  }

  // ---- The stitcher's loops ----

  /** `seen` and what the rest of the stream still says are all the stream says. */
  ghost predicate Seen(lines: seq<Line>, seen: seq<Choice>, i: nat)
    requires i <= |lines|
  {
    Choices(lines) == seen + Choices(lines[i..])
  }

  lemma SeenStart(lines: seq<Line>)
    ensures Seen(lines, [], 0)
  {
    assert lines[0..] == lines;
  }

  lemma SeenStep(lines: seq<Line>, seen: seq<Choice>, i: nat)
    requires i < |lines| && Seen(lines, seen, i)
    ensures match lines[i]
            case Done => Choices(lines) == seen
            case Noise => Seen(lines, seen, i + 1)
            case Chunk(_, _, cs) => Seen(lines, seen + cs, i + 1)
  {
    assert lines[i..][1..] == lines[i + 1..];
    match lines[i]
    case Done =>
    case Noise => assert [] + Choices(lines[i + 1..]) == Choices(lines[i + 1..]);
    case Chunk(_, _, cs) => assert seen + (cs + Choices(lines[i + 1..])) == (seen + cs) + Choices(lines[i + 1..]);
  }

  lemma SeenEnd(lines: seq<Line>, seen: seq<Choice>)
    requires Seen(lines, seen, |lines|)
    ensures Choices(lines) == seen
  {
    assert lines[|lines|..] == [];
  }

  lemma SnocContent(cs: seq<Choice>, c: Choice)
    ensures Content(cs + [c]) == Content(cs) + c.content && Reasoning(cs + [c]) == Reasoning(cs) + c.reasoning
    ensures Fragments(cs + [c]) == Fragments(cs) + c.calls
    ensures Finish(cs + [c]) == if c.finish != "" then c.finish else Finish(cs)
  {
    assert (cs + [c])[..|cs|] == cs;
  }

  lemma SnocStitch(fs: seq<Fragment>, f: Fragment)
    ensures StitchAll(fs + [f]) == Stitch(StitchAll(fs), f)
  {
    assert (fs + [f])[..|fs|] == fs;
  }

  method StitchChoice(calls: map<int, Call>, ghost before: seq<Fragment>, fs: seq<Fragment>) returns (r: map<int, Call>)
    requires calls == StitchAll(before)
    ensures r == StitchAll(before + fs)
  {
    hide StitchAll;
    r := calls;
    assert before + fs[..0] == before;
    for k := 0 to |fs|
      invariant r == StitchAll(before + fs[..k])
    {
      var f := fs[k];
      SnocStitch(before + fs[..k], f);
      assert before + fs[..k + 1] == (before + fs[..k]) + [f];
      if f.index !in r {
        r := r[f.index := Call("", "", "")];
      }
      var slot := r[f.index];
      assert slot.name + "" == slot.name && slot.arguments + "" == slot.arguments;
      if f.id != "" {
        slot := slot.(id := f.id);
      }
      if f.name != "" {
        slot := slot.(name := slot.name + f.name);
      }
      if f.arguments != "" {
        slot := slot.(arguments := slot.arguments + f.arguments);
      }
      r := r[f.index := slot];
    }
    assert fs[..|fs|] == fs;
  }

  method ParseSseStream(lines: seq<Line>) returns (message: Message, usage: string)
    ensures message == StreamMessage(lines)
    ensures usage == Usage(lines)
  {
    hide Choices, Content, Fragments, Finish, StitchAll, Seen, Usage;
    var content, calls, finish := "", map[], "";
    usage := "";
    ghost var seen: seq<Choice> := [];
    SeenStart(lines);
    UsageStart(lines);
    NothingSaid();
    var i, done := 0, false;
    while i < |lines| && !done
      invariant i <= |lines|
      invariant if done then Choices(lines) == seen else Seen(lines, seen, i)
      invariant Usage(lines) == if done then usage else LaterUsage(usage, lines[i..])
      invariant content == Content(seen) && finish == Finish(seen) && calls == StitchAll(Fragments(seen))
      decreases |lines| - i, !done
    {
      SeenStep(lines, seen, i);
      UsageStep(usage, lines[i..]);
      assert lines[i..][1..] == lines[i + 1..];
      match lines[i]
      case Noise =>
        i := i + 1;
      case Done =>
        done := true;
      case Chunk(_, u, cs) =>
        if u != "" {
          usage := u;
        }
        ghost var old_ := seen;
        assert old_ + cs[..0] == old_;
        for j := 0 to |cs|
          invariant seen == old_ + cs[..j]
          invariant content == Content(seen) && finish == Finish(seen) && calls == StitchAll(Fragments(seen))
        {
          var c := cs[j];
          SnocContent(seen, c);
          assert old_ + cs[..j + 1] == seen + [c];
          if c.finish != "" {
            finish := c.finish;
          }
          if c.content != "" {
            content := content + c.content;
          }
          calls := StitchChoice(calls, Fragments(seen), c.calls);
          seen := seen + [c];
        }
        assert old_ + cs[..|cs|] == old_ + cs;
        i := i + 1;
    }
    if !done {
      SeenEnd(lines, seen);
      UsageStep(usage, lines[i..]);
    }
    message := Message(content, ToolCalls(calls), finish);
  }

  lemma NothingSaid()
    ensures Content([]) == "" && Finish([]) == "" && StitchAll(Fragments([])) == map[]
    ensures Reasoning([]) == "" && Relayed([]) == []
  {
  }

  /** The last usage record before the end mark, `u` when there is none. */
  function LaterUsage(u: string, lines: seq<Line>): string
    decreases |lines|
  {
    if lines == [] || lines[0].Done? then u
    else LaterUsage(if lines[0].Chunk? && lines[0].usage != "" then lines[0].usage else u, lines[1..])
  }

  function Usage(lines: seq<Line>): string {
    LaterUsage("", lines)
  }

  lemma UsageStart(lines: seq<Line>)
    ensures Usage(lines) == LaterUsage("", lines[0..])
  {
    assert lines[0..] == lines;
  }

  lemma UsageStep(u: string, lines: seq<Line>)
    ensures LaterUsage(u, lines) ==
            if lines == [] || lines[0].Done? then u
            else LaterUsage(if lines[0].Chunk? && lines[0].usage != "" then lines[0].usage else u, lines[1..])
  {
  }

  // ---- The relay ----

  const END_MARK := "[DONE]"

  /** The texts of the chunks before the end mark, and the mark. */
  function Relayed(lines: seq<Line>): seq<string> {
    if lines == [] then []
    else if lines[0].Done? then [END_MARK]
    else (if lines[0].Chunk? then [lines[0].text] else []) + Relayed(lines[1..])
  }

  predicate Completes(lines: seq<Line>) {
    exists i :: 0 <= i < |lines| && lines[i].Done?
  }

  /** What the relay reads agrees with the stitcher; what it writes on is every chunk and the end mark
      if there is one; and the count is honest. */
  method ConsumeRelayStream(lines: seq<Line>)
    returns (content: string, relayChars: nat, doneSeen: bool, written: seq<string>)
    ensures content == StreamMessage(lines).content
    ensures relayChars == |content| + |Reasoning(Choices(lines))|
    ensures doneSeen == Completes(lines)
    ensures written == Relayed(lines)
  {
    hide Choices, Content, Reasoning, Fragments, Finish, StitchAll, ToolCalls, Seen, Relayed, Sorted;
    content, relayChars, doneSeen, written := "", 0, false, [];
    ghost var seen: seq<Choice> := [];
    SeenStart(lines);
    NothingSaid();
    assert lines[0..] == lines;
    assert [] + Relayed(lines) == Relayed(lines);
    var i := 0;
    while i < |lines| && !doneSeen
      invariant i <= |lines| && (doneSeen ==> i < |lines| && lines[i].Done?)
      invariant forall k :: 0 <= k < i ==> !lines[k].Done?
      invariant if doneSeen then Choices(lines) == seen else Seen(lines, seen, i)
      invariant Relayed(lines) == if doneSeen then written else written + Relayed(lines[i..])
      invariant content == Content(seen) && relayChars == |content| + |Reasoning(seen)|
      decreases |lines| - i, !doneSeen
    {
      SeenStep(lines, seen, i);
      RelayStep(lines[i..], written);
      assert lines[i..][1..] == lines[i + 1..];
      match lines[i]
      case Noise =>
        i := i + 1;
      case Done =>
        written := written + [END_MARK];
        doneSeen := true;
      case Chunk(text, _, cs) =>
        ghost var old_ := seen;
        assert old_ + cs[..0] == old_;
        for j := 0 to |cs|
          invariant seen == old_ + cs[..j]
          invariant content == Content(seen) && relayChars == |content| + |Reasoning(seen)|
        {
          var c := cs[j];
          SnocContent(seen, c);
          assert old_ + cs[..j + 1] == seen + [c];
          if c.content != "" {
            content := content + c.content;
          }
          relayChars := relayChars + |c.content| + |c.reasoning|;
          seen := seen + [c];
        }
        assert old_ + cs[..|cs|] == old_ + cs;
        written := written + [text];
        i := i + 1;
    }
    if !doneSeen {
      SeenEnd(lines, seen);
      RelayStep(lines[i..], written);
    }
  }

  lemma RelayStep(lines: seq<Line>, written: seq<string>)
    ensures written + Relayed(lines) ==
            if lines == [] then written
            else if lines[0].Done? then written + [END_MARK]
            else (if lines[0].Chunk? then written + [lines[0].text] else written) + Relayed(lines[1..])
  {
    hide Relayed;
    RelayedUnfolds(lines);
    if lines == [] {
      assert written + [] == written;
    } else if !lines[0].Done? {
      var text := if lines[0].Chunk? then [lines[0].text] else [];
      Reassociate(written, text, Relayed(lines[1..]));
      assert !lines[0].Chunk? ==> written + text == written;
    }
  }

  lemma RelayedUnfolds(lines: seq<Line>)
    ensures Relayed(lines) ==
            if lines == [] then []
            else if lines[0].Done? then [END_MARK]
            else (if lines[0].Chunk? then [lines[0].text] else []) + Relayed(lines[1..])
  {
  }

  lemma Reassociate(a: seq<string>, b: seq<string>, c: seq<string>)
    ensures a + (b + c) == (a + b) + c
  {
  }
}
