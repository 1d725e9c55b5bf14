/** The FLOW instruction of the kernel module (vitriol-daemon/vitriol.c, `handle_flow`,
    `read_source_file`): copy a range of the source file into the BAR1 window, chunk by chunk. */
module FlowCopy {
  import opened Common

  const ENOMEM := -12
  const ENODEV := -19
  const EINVAL := -22

  /** Returned where `handle_flow` hands over to the cooperative path, which is not modelled. */
  const DELEGATED := 1

  const TWO_63 := 0x8000_0000_0000_0000
  const TWO_64 := 0x1_0000_0000_0000_0000

  datatype Vessel = Vessel(id: nat, claimed: bool, bar1Offset: nat)

  datatype Drop = Drop(vesselId: nat, srcAddr: nat, dstAddr: nat, size: nat)

  /** The first claimed vessel of that id, `|vs|` when there is none. */
  function FindVessel(vs: seq<Vessel>, id: nat): (i: nat)
    ensures i <= |vs|
    ensures forall j :: 0 <= j < i ==> !(vs[j].id == id && vs[j].claimed)
    ensures i < |vs| ==> vs[i].id == id && vs[i].claimed
  {
    if vs == [] || (vs[0].id == id && vs[0].claimed) then 0
    else
      var i := FindVessel(vs[1..], id);
      assert forall j :: 0 < j < i + 1 ==> vs[j] == vs[1..][j - 1];
      i + 1
  }

  function Min(a: int, b: int): int {
    if a < b then a else b
  }

  /** How many bytes a complete transfer moves: what was asked for, or what the file still has. */
  function Available(size: nat, src: nat, fileSize: nat): nat {
    if src >= fileSize then 0 else Min(size, fileSize - src)
  }

  /** `s` with `data` laid over it from `at` on. */
  function Overlay(s: seq<Byte>, at: nat, data: seq<Byte>): (r: seq<Byte>)
    requires at + |data| <= |s|
    ensures |r| == |s|
    ensures forall i :: 0 <= i < |s| ==> r[i] == if at <= i < at + |data| then data[i - at] else s[i]
  {
    s[..at] + data + s[at + |data|..]
  }

  lemma OverlayMore(s: seq<Byte>, at: nat, a: seq<Byte>, b: seq<Byte>)
    requires at + |a| + |b| <= |s|
    ensures Overlay(Overlay(s, at, a), at + |a|, b) == Overlay(s, at, a + b)
  {
  }

  /** The window after the first `n` bytes from `src` have landed at `dst`. */
  function Landed(before: seq<Byte>, dst: nat, file: seq<Byte>, src: nat, n: nat): seq<Byte>
    requires n > 0 ==> dst + n <= |before| && src + n <= |file|
  {
    if n == 0 then before else Overlay(before, dst, file[src..src + n])
  }

  // ---- What a run of reads brings ----

  /** How the kernel takes a read without a position: where the seek before it went, or at the start. */
  datatype Position = Sought | Start

  function ReadAt(src: nat, done: nat, how: Position): nat {
    if how == Sought then src + done else 0
  }

  function Sum(parts: seq<nat>): nat {
    if parts == [] then 0 else Sum(parts[..|parts| - 1]) + parts[|parts| - 1]
  }

  /** Non-empty reads of these lengths, one after the other, all find their bytes in the file. */
  predicate Inside(file: seq<Byte>, src: nat, parts: seq<nat>, how: Position) {
    parts == [] ||
    var before, n := parts[..|parts| - 1], parts[|parts| - 1];
    Inside(file, src, before, how) && n > 0 && ReadAt(src, Sum(before), how) + n <= |file|
  }

  /** The bytes they bring. */
  function Got(file: seq<Byte>, src: nat, parts: seq<nat>, how: Position): (r: seq<Byte>)
    requires Inside(file, src, parts, how)
    ensures |r| == Sum(parts)
  {
    if parts == [] then []
    else
      var before, n := parts[..|parts| - 1], parts[|parts| - 1];
      var at := ReadAt(src, Sum(before), how);
      Got(file, src, before, how) + file[at..at + n]
  }

  lemma OneMoreRead(file: seq<Byte>, src: nat, parts: seq<nat>, how: Position, n: nat)
    requires Inside(file, src, parts, how) && n > 0 && ReadAt(src, Sum(parts), how) + n <= |file|
    ensures Sum(parts + [n]) == Sum(parts) + n && Inside(file, src, parts + [n], how)
    ensures var at := ReadAt(src, Sum(parts), how);
            Got(file, src, parts + [n], how) == Got(file, src, parts, how) + file[at..at + n]
  {
    assert (parts + [n])[..|parts|] == parts;
  }

  lemma SliceJoin(file: seq<Byte>, a: nat, b: nat, c: nat)
    requires a <= b <= c <= |file|
    ensures file[a..b] + file[b..c] == file[a..c]
  {
  }

  /** Reads that follow the seek bring one range of the file, however they were cut. */
  lemma {:induction false} SoughtIsRange(file: seq<Byte>, src: nat, parts: seq<nat>)
    requires Inside(file, src, parts, Sought)
    ensures Sum(parts) > 0 <==> parts != []
    ensures parts != [] ==> src + Sum(parts) <= |file| && Got(file, src, parts, Sought) == file[src..src + Sum(parts)]
    decreases |parts|
  {
    if parts != [] {
      var before, n := parts[..|parts| - 1], parts[|parts| - 1];
      SoughtIsRange(file, src, before);
      if before == [] {
        assert [] + file[src..src + n] == file[src..src + n];
      } else {
        SliceJoin(file, src, src + Sum(before), src + Sum(before) + n);
      }
    }
  }

  /** Each byte comes from its place behind the start of its own read. */
  lemma {:induction false} GotAt(file: seq<Byte>, src: nat, parts: seq<nat>, how: Position, i: nat, j: nat)
    requires Inside(file, src, parts, how) && i < |parts| && j < parts[i]
    ensures var f, at := Sum(parts[..i]) + j, ReadAt(src, Sum(parts[..i]), how) + j;
            f < |Got(file, src, parts, how)| && at < |file| && Got(file, src, parts, how)[f] == file[at]
    decreases |parts|
  {
    hide *;
    LastRead(file, src, parts, how);
    var before := parts[..|parts| - 1];
    if i < |before| {
      GotAt(file, src, before, how, i, j);
      assert before[..i] == parts[..i];
    }
  }

  lemma LastRead(file: seq<Byte>, src: nat, parts: seq<nat>, how: Position)
    requires Inside(file, src, parts, how) && parts != []
    ensures var before, n := parts[..|parts| - 1], parts[|parts| - 1];
            var at := ReadAt(src, Sum(before), how);
            && Inside(file, src, before, how) && at + n <= |file|
            && Got(file, src, parts, how) == Got(file, src, before, how) + file[at..at + n]
  {
  }

  /** A single read from the start of the file brings the same bytes under both readings. */
  lemma ReadingsAgree(file: seq<Byte>, parts: seq<nat>)
    requires |parts| <= 1
    ensures Inside(file, 0, parts, Sought) <==> Inside(file, 0, parts, Start)
    ensures Inside(file, 0, parts, Sought) ==> Got(file, 0, parts, Sought) == Got(file, 0, parts, Start)
  {
    if parts != [] {
      assert parts[..0] == [];
    }
  }

  /** Otherwise a read at the start shows: a later read, or one meant for `src`, begins with the first
      byte of the file. */
  lemma StartRepeats(file: seq<Byte>, src: nat, parts: seq<nat>, i: nat)
    requires Inside(file, src, parts, Start) && i < |parts|
    ensures var f := Sum(parts[..i]);
            f < |Got(file, src, parts, Start)| && |file| > 0 && Got(file, src, parts, Start)[f] == file[0]
  {
    ReadsArePositive(file, src, parts, Start, i);
    GotAt(file, src, parts, Start, i, 0);
  }

  lemma {:induction false} ReadsArePositive(file: seq<Byte>, src: nat, parts: seq<nat>, how: Position, i: nat)
    requires Inside(file, src, parts, how) && i < |parts|
    ensures parts[i] > 0
    decreases |parts|
  {
    if i < |parts| - 1 {
      ReadsArePositive(file, src, parts[..|parts| - 1], how, i);
    }
  }

  /** How many bytes a complete transfer moves under either reading. */
  function Reach(size: nat, src: nat, fileSize: nat, how: Position): (n: nat)
    ensures n <= size
  {
    if how == Sought then Available(size, src, fileSize) else if fileSize == 0 then 0 else size
  }

  // ---- Into the window ----

  /** The window with `data` at `dst`; no data needs no room. */
  function Put(before: seq<Byte>, dst: nat, data: seq<Byte>): seq<Byte>
    requires data != [] ==> dst + |data| <= |before|
  {
    if data == [] then before else Overlay(before, dst, data)
  }

  lemma PutMore(before: seq<Byte>, dst: nat, got: seq<Byte>, data: seq<Byte>)
    requires data != [] && dst + |got| + |data| <= |before|
    ensures |Put(before, dst, got)| == |before|
    ensures Overlay(Put(before, dst, got), dst + |got|, data) == Put(before, dst, got + data)
  {
    hide *;
    PutSome(before, dst, got + data);
    if got == [] {
      PutNothing(before, dst);
      assert got + data == data;
    } else {
      PutSome(before, dst, got);
      OverlayMore(before, dst, got, data);
    }
  }

  lemma PutSome(before: seq<Byte>, dst: nat, data: seq<Byte>)
    requires data != [] && dst + |data| <= |before|
    ensures Put(before, dst, data) == Overlay(before, dst, data) && |Put(before, dst, data)| == |before|
  {
    hide Overlay;
  }

  lemma PutNothing(before: seq<Byte>, dst: nat)
    ensures Put(before, dst, []) == before
  {
  }

  /** Following the seek, what is put is the file range. */
  lemma PutSought(before: seq<Byte>, dst: nat, file: seq<Byte>, src: nat, parts: seq<nat>)
    requires Inside(file, src, parts, Sought) && (Sum(parts) > 0 ==> dst + Sum(parts) <= |before|)
    ensures Sum(parts) > 0 ==> src + Sum(parts) <= |file|
    ensures Put(before, dst, Got(file, src, parts, Sought)) == Landed(before, dst, file, src, Sum(parts))
  {
    hide Overlay;
    SoughtIsRange(file, src, parts);
  }

  class Daemon {
    var vessels: seq<Vessel>
    var vialSet: bool
    var apertureMax: nat
    var cooperative: bool          // vial and driver allow the peer-to-peer path
    const kernel: Position         // what `kernel_read` does without a position
    var source: seq<Byte>          // contents of the source file
    var sourceSet: bool
    var bar1: array?<Byte>         // the mapped window, null while unmapped
    var dmaSize: nat
    var haveDmaBuffer: bool
    var haveFallbackBuffer: bool
    var lastFlowSize: nat

    /** Contents of the window. */
    function Window(): seq<Byte>
      reads this, bar1
      requires bar1 != null
    {
      bar1[..]
    }

    /** Where a drop writes, in 64-bit arithmetic. */
    function Destination(drop: Drop): nat
      reads this
      requires FindVessel(vessels, drop.vesselId) < |vessels|
    {
      (drop.dstAddr + vessels[FindVessel(vessels, drop.vesselId)].bar1Offset) % TWO_64
    }

    /** Everything `handle_flow` checks before it starts moving bytes; 0 when it goes on. */
    function Refusal(drop: Drop): int
      reads this
    {
      if FindVessel(vessels, drop.vesselId) == |vessels| then ENODEV
      else if drop.size == 0 then EINVAL
      else if vialSet && drop.size > apertureMax then EINVAL
      else if cooperative then DELEGATED
      else if sourceSet && !haveDmaBuffer && !haveFallbackBuffer then ENOMEM
      else 0
    }

    /** One read: any negative error, end of file, or any non-zero part of what was asked for.
        `luck` is what the file system makes of it. */
    method ReadSourceFile(offset: nat, count: nat, luck: int) returns (n: int, data: seq<Byte>)
      ensures n >= 0 ==> sourceSet && offset < TWO_63 && n == |data|
      ensures var at := ReadAt(offset, 0, kernel);
              && (n > 0 ==> n <= count && at + n <= |source| && data == source[at..at + n])
              && (n == 0 ==> count == 0 || at >= |source|)
      ensures n < 0 <==> !sourceSet || offset >= TWO_63 || luck < 0
      ensures n < 0 ==> n == if !sourceSet then ENODEV else if offset >= TWO_63 then EINVAL else luck
    {
      data := [];
      if !sourceSet {
        return ENODEV, data;
      }
      if offset >= TWO_63 {
        return EINVAL, data;
      }
      if luck < 0 {
        return luck, data;
      }
      var at := if kernel == Sought then offset else 0;
      if at >= |source| || count == 0 {
        return 0, data;
      }
      n := Min(Min(count, |source| - at), if luck == 0 then 1 else luck);
      data := source[at..at + n];
    }

    /** FLOW. `lucks` decides the outcome of every read, and `parts` are the lengths of those that brought
        bytes. On success the window holds what they brought, which is the available part of the file
        range if reads follow the seek; after a failed read it holds what was moved until then. Nothing
        else of the window changes. `fault` is a write that the source does not prevent, outside the
        window or through the missing DMA buffer, after which nothing is said. */
    method HandleFlow(drop: Drop, lucks: nat -> int) returns (ret: int, moved: nat, fault: bool, ghost parts: seq<nat>)
      requires |source| < TWO_63 && drop.srcAddr < TWO_64
      modifies this`lastFlowSize, bar1
      ensures old(Refusal(drop)) != 0 ==> ret == old(Refusal(drop)) && !fault
      ensures old(Refusal(drop)) != 0 || !sourceSet || fault ==> lastFlowSize == old(lastFlowSize)
      ensures old(Refusal(drop)) != 0 || !sourceSet ==> moved == 0
      ensures bar1 != null && old(Refusal(drop)) != 0 ==> Window() == old(Window())
      ensures old(Refusal(drop)) == 0 && !sourceSet ==> ret == 0
      ensures bar1 != null && old(Refusal(drop)) == 0 && !sourceSet ==>
                && (fault <==> !haveDmaBuffer || Destination(drop) + Zeroed(drop) > bar1.Length)
                && (!fault ==> Window() == Overlay(old(Window()), Destination(drop), Zeros(Zeroed(drop))))
      ensures old(Refusal(drop)) == 0 && sourceSet ==>
                var n := Reach(drop.size, drop.srcAddr, |source|, kernel);
                && ret <= 0 && moved == Sum(parts) <= n && Inside(source, drop.srcAddr, parts, kernel)
                && (ret == 0 && !fault ==> moved == n)
                && (!fault ==> lastFlowSize == if ret == 0 then moved else old(lastFlowSize))
                && (ret < 0 ==> ret == EINVAL || exists turn :: lucks(turn) == ret)
                && (dmaSize > 0 ==> forall i :: 0 <= i < |parts| ==> parts[i] <= dmaSize)
      ensures bar1 == null ==> !fault
      ensures bar1 != null && old(Refusal(drop)) == 0 && sourceSet ==>
                && (fault ==> Destination(drop) + Reach(drop.size, drop.srcAddr, |source|, kernel) > bar1.Length)
                && (moved > 0 ==> Destination(drop) + moved <= bar1.Length)
                && Window() == Put(old(Window()), Destination(drop), Got(source, drop.srcAddr, parts, kernel))
      ensures bar1 != null && old(Refusal(drop)) == 0 && sourceSet && kernel == Sought ==>
                && (moved > 0 ==> drop.srcAddr + moved <= |source|)
                && Window() == Landed(old(Window()), Destination(drop), source, drop.srcAddr, moved)
    {
      hide FindVessel, Overlay, Landed, Zeros, Put, Got, Inside, Sum;
      moved, fault, parts := 0, false, [];
      var v := FindVessel(vessels, drop.vesselId);
      if v == |vessels| {
        return ENODEV, 0, false, [];
      }
      if drop.size == 0 {
        return EINVAL, 0, false, [];
      }
      if vialSet && drop.size > apertureMax {
        return EINVAL, 0, false, [];
      }
      var src, dst, size := drop.srcAddr, (drop.dstAddr + vessels[v].bar1Offset) % TWO_64, drop.size;
      if cooperative {
        return DELEGATED, 0, false, [];
      }
      if !sourceSet {
        fault := ZeroWindow(dst, size);
        return 0, 0, fault, [];
      }
      if !haveDmaBuffer && !haveFallbackBuffer {
        return ENOMEM, 0, false, [];
      }
      ret, moved, fault, parts := CopyChunks(src, dst, size, lucks);
      if bar1 != null && kernel == Sought {
        PutSought(old(Window()), dst, source, src, parts);
      }
      if ret == 0 && !fault {
        lastFlowSize := moved;
      }
    }

    /** Without a source: zero the DMA buffer, whether or not there is one, and copy it. */
    method ZeroWindow(dst: nat, size: nat) returns (fault: bool)
      modifies bar1
      ensures bar1 == null ==> !fault
      ensures bar1 != null ==>
                var n := if dmaSize > 0 then Min(size, dmaSize) else size;
                && (fault <==> !haveDmaBuffer || dst + n > bar1.Length)
                && (!fault ==> Window() == Overlay(old(Window()), dst, Zeros(n)))
    {
      if bar1 == null {
        return false;
      }
      var n := size;
      if dmaSize > 0 && n > dmaSize {
        n := dmaSize;
      }
      if !haveDmaBuffer || dst + n > bar1.Length {
        return true;
      }
      Write(dst, Zeros(n));
      return false;
    }

    /** Bytes zeroed when no source is set. */
    function Zeroed(drop: Drop): nat
      reads this
    {
      if dmaSize > 0 then Min(drop.size, dmaSize) else drop.size
    }

    /** The reads so far have landed, all of them inside the window. */
    ghost predicate Moved(before: seq<Byte>, src: nat, dst: nat, size: nat, parts: seq<nat>)
      reads this, bar1
    {
      && Inside(source, src, parts, kernel) && Sum(parts) <= Reach(size, src, |source|, kernel)
      && (bar1 != null ==>
            && (Sum(parts) > 0 ==> dst + Sum(parts) <= |before|)
            && Window() == Put(before, dst, Got(source, src, parts, kernel)))
    }

    /** The chunk loop. It ends for every chunk limit and every pattern of short reads. */
    method CopyChunks(src: nat, dst: nat, size: nat, lucks: nat -> int)
      returns (ret: int, moved: nat, fault: bool, ghost parts: seq<nat>)
      requires sourceSet && |source| < TWO_63 && size > 0 && src < TWO_64
      modifies bar1
      ensures ret <= 0 && moved == Sum(parts) && Moved(if bar1 == null then [] else old(bar1[..]), src, dst, size, parts)
      ensures ret == 0 && !fault ==> moved == Reach(size, src, |source|, kernel)
      ensures fault ==> bar1 != null && dst + Reach(size, src, |source|, kernel) > bar1.Length
      ensures dmaSize > 0 ==> forall i :: 0 <= i < |parts| ==> parts[i] <= dmaSize
      ensures ret < 0 ==> ret == EINVAL || exists turn :: lucks(turn) == ret
    {
      hide Overlay, Put, Got, Inside, Sum, Reach, ReadAt;
      ghost var before := if bar1 == null then [] else bar1[..];
      NothingRead(before, dst, source, src, kernel);
      ret, moved, fault, parts := 0, 0, false, [];
      var turn: nat := 0;
      while moved < size
        invariant moved == Sum(parts) <= size && Moved(before, src, dst, size, parts)
        invariant dmaSize > 0 ==> forall i :: 0 <= i < |parts| ==> parts[i] <= dmaSize
      {
        var n, data := ReadChunk(src, size, moved, parts, lucks(turn));
        if n < 0 {
          return n, moved, false, parts;
        }
        if n == 0 {
          break;
        }
        if bar1 != null && dst + moved + n > bar1.Length {
          fault := true;
          return;
        }
        Land(before, src, dst, size, moved, parts, data);
        OneMoreRead(source, src, parts, kernel, n);
        parts := parts + [n];
        moved := moved + n;
        turn := turn + 1;
      }
    }

    /** The next chunk of the file, at most what is left and what the buffer takes. */
    method ReadChunk(src: nat, size: nat, moved: nat, ghost parts: seq<nat>, luck: int) returns (n: int, data: seq<Byte>)
      requires sourceSet && |source| < TWO_63 && src < TWO_64
      requires Inside(source, src, parts, kernel) && moved == Sum(parts) < size && moved <= Reach(size, src, |source|, kernel)
      ensures var at := ReadAt(src, moved, kernel);
              && (n > 0 ==> n == |data| && at + n <= |source| && data == source[at..at + n])
              && (n > 0 ==> moved + n <= Reach(size, src, |source|, kernel) <= size)
              && (n == 0 ==> moved == Reach(size, src, |source|, kernel))
      ensures dmaSize > 0 ==> n <= dmaSize
      ensures n < 0 ==> n == EINVAL || n == luck
    {
      hide Inside, Sum;
      var chunk := size - moved;
      if dmaSize > 0 && chunk > dmaSize {
        chunk := dmaSize;
      }
      PlaceInFile(source, src, parts, kernel);
      NoneOfNothing(source, src, parts, kernel);
      n, data := ReadSourceFile((src + moved) % TWO_64, chunk, luck);
    }

    /** One chunk into the window, if there is one. */
    method Land(ghost before: seq<Byte>, src: nat, dst: nat, size: nat, moved: nat, ghost parts: seq<nat>, data: seq<Byte>)
      requires Moved(before, src, dst, size, parts) && data != [] && moved == Sum(parts)
      requires Sum(parts) + |data| <= Reach(size, src, |source|, kernel)
      requires var at := ReadAt(src, Sum(parts), kernel); at + |data| <= |source| && data == source[at..at + |data|]
      requires bar1 != null ==> |before| == bar1.Length && dst + Sum(parts) + |data| <= bar1.Length
      modifies bar1
      ensures Moved(before, src, dst, size, parts + [|data|])
    {
      hide Overlay, Put, Got, Inside, Sum;
      OneMoreRead(source, src, parts, kernel, |data|);
      if bar1 != null {
        PutMore(before, dst, Got(source, src, parts, kernel), data);
        Write(dst + moved, data);
      }
    }

    /** `memcpy_toio`. */
    method Write(at: nat, data: seq<Byte>)
      requires bar1 != null && at + |data| <= bar1.Length
      modifies bar1
      ensures Window() == Overlay(old(Window()), at, data)
    {
      for i := 0 to |data|
        invariant forall j :: 0 <= j < bar1.Length ==>
                    bar1[j] == if at <= j < at + i then data[j - at] else old(bar1[j])
      {
        bar1[at + i] := data[i];
      }
    }
  }

  /** FLOW goes on exactly for a claimed vessel and a size that is not zero and within the aperture of the vial, if
      there is one, unless the cooperative path takes over or a source finds no buffer; and what it answers else. */
  lemma RefusalExactly(d: Daemon, drop: Drop)
    ensures var claimed := exists i :: 0 <= i < |d.vessels| && d.vessels[i].id == drop.vesselId && d.vessels[i].claimed;
            var sized := drop.size > 0 && (d.vialSet ==> drop.size <= d.apertureMax);
            && (d.Refusal(drop) == 0 <==> claimed && sized && !d.cooperative && (d.sourceSet ==> d.haveDmaBuffer || d.haveFallbackBuffer))
            && (d.Refusal(drop) == ENODEV <==> !claimed)
            && (d.Refusal(drop) == EINVAL <==> claimed && !sized)
            && (d.Refusal(drop) == DELEGATED <==> claimed && sized && d.cooperative)
  {
  }

  lemma NothingRead(before: seq<Byte>, dst: nat, file: seq<Byte>, src: nat, how: Position)
    ensures Sum([]) == 0 && Inside(file, src, [], how) && Put(before, dst, Got(file, src, [], how)) == before
  {
  }

  /** An empty file brings nothing. */
  lemma NoneOfNothing(file: seq<Byte>, src: nat, parts: seq<nat>, how: Position)
    requires Inside(file, src, parts, how)
    ensures file == [] ==> Sum(parts) == 0
  {
  }

  /** Reads that follow the seek have not left the file. */
  lemma PlaceInFile(file: seq<Byte>, src: nat, parts: seq<nat>, how: Position)
    requires Inside(file, src, parts, how)
    ensures how == Sought && Sum(parts) > 0 ==> src + Sum(parts) <= |file|
  {
    if how == Sought {
      SoughtIsRange(file, src, parts);
    }
  }

  function Zeros(n: nat): (r: seq<Byte>)
    ensures |r| == n && forall i :: 0 <= i < n ==> r[i] == 0
  {
    seq(n, i => 0)
  }

  /** The landed range is the file range byte for byte, and everything around it is as before. */
  lemma LandedMeaning(s: seq<Byte>, at: nat, file: seq<Byte>, src: nat, n: nat)
    requires at + n <= |s| && src + n <= |file|
    ensures var r := Landed(s, at, file, src, n);
            r[at..at + n] == file[src..src + n] && r[..at] == s[..at] && r[at + n..] == s[at + n..]
  {
  }
}
