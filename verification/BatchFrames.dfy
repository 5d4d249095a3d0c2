/** Laying out a batch as seekable frames, and finding a chunk among them. */
module BatchFrames {
  import opened LinearAlgebra
  import opened BatchState
  import Sequences

  function Length(plains: seq<Vec>): nat {
    if plains == [] then 0 else Length(plains[..|plains| - 1]) + |plains[|plains| - 1]|
  }

  /** Frame i holds plains[i], compressed at its place in the blob. */
  ghost predicate FrameAt(z: Zip, dict: Vec, frames: seq<Frame>, plains: seq<Vec>, blob: Vec, i: nat)
    requires i < |frames| && |frames| == |plains|
  {
    var fr := frames[i];
    plains[i] != [] && fr.rawStart == Length(plains[..i]) && fr.rawLen == |plains[i]|
    && fr.compOffset + fr.compLen <= |blob|
    && blob[fr.compOffset..fr.compOffset + fr.compLen] == z.compress(dict, plains[i])
  }

  ghost predicate Built(z: Zip, dict: Vec, frames: seq<Frame>, plains: seq<Vec>, blob: Vec) {
    |frames| == |plains| && dict <= blob
    && forall i :: 0 <= i < |frames| ==> FrameAt(z, dict, frames, plains, blob, i)
  }

  /** The data lies wholly in plains[j]. */
  ghost predicate Inside(plains: seq<Vec>, offset: nat, data: Vec, j: nat) {
    j < |plains| && Length(plains[..j]) <= offset && offset + |data| <= Length(plains[..j]) + |plains[j]|
    && plains[j][offset - Length(plains[..j])..][..|data|] == data
  }

  ghost predicate Covered(plains: seq<Vec>, offset: nat, data: Vec) {
    exists j :: Inside(plains, offset, data, j)
  }

  /** The data lies in the frame still being filled. */
  ghost predicate InBuffer(start: nat, buffer: Vec, offset: nat, data: Vec) {
    start <= offset && offset + |data| <= start + |buffer| && buffer[offset - start..][..|data|] == data
  }

  lemma BlobGrows(z: Zip, dict: Vec, frames: seq<Frame>, plains: seq<Vec>, blob: Vec, more: Vec)
    requires Built(z, dict, frames, plains, blob)
    ensures Built(z, dict, frames, plains, blob + more)
  {
    hide Length;
    forall i: nat | i < |frames|
      ensures FrameAt(z, dict, frames, plains, blob + more, i)
    {
      assert FrameAt(z, dict, frames, plains, blob, i);
      var fr := frames[i];
      assert (blob + more)[fr.compOffset..fr.compOffset + fr.compLen]
             == blob[fr.compOffset..fr.compOffset + fr.compLen];
    }
  }

  lemma FrameFlushed(z: Zip, dict: Vec, frames: seq<Frame>, plains: seq<Vec>, blob: Vec, buffer: Vec)
    requires Built(z, dict, frames, plains, blob) && buffer != []
    ensures var comp := z.compress(dict, buffer);
            Built(z, dict, frames + [Frame(Length(plains), |buffer|, |blob|, |comp|)], plains + [buffer], blob + comp)
  {
    hide Length;
    var comp := z.compress(dict, buffer);
    var frames', plains' := frames + [Frame(Length(plains), |buffer|, |blob|, |comp|)], plains + [buffer];
    BlobGrows(z, dict, frames, plains, blob, comp);
    forall i: nat | i < |frames'|
      ensures FrameAt(z, dict, frames', plains', blob + comp, i)
    {
      if i < |frames| {
        assert FrameAt(z, dict, frames, plains, blob + comp, i);
        assert plains'[..i] == plains[..i];
      } else {
        assert plains'[..i] == plains;
        assert (blob + comp)[|blob|..|blob| + |comp|] == comp;
      }
    }
  }

  lemma CoveredMore(plains: seq<Vec>, more: Vec, offset: nat, data: Vec)
    requires Covered(plains, offset, data)
    ensures Covered(plains + [more], offset, data)
  {
    hide Length;
    var j: nat :| Inside(plains, offset, data, j);
    assert (plains + [more])[..j] == plains[..j];
    assert Inside(plains + [more], offset, data, j);
  }

  lemma BufferCovered(plains: seq<Vec>, buffer: Vec, offset: nat, data: Vec)
    requires InBuffer(Length(plains), buffer, offset, data)
    ensures Covered(plains + [buffer], offset, data)
  {
    hide Length;
    assert (plains + [buffer])[..|plains|] == plains;
    assert Inside(plains + [buffer], offset, data, |plains|);
  }

  lemma BufferGrows(start: nat, buffer: Vec, more: Vec, offset: nat, data: Vec)
    requires InBuffer(start, buffer, offset, data)
    ensures InBuffer(start, buffer + more, offset, data)
  {
    var at := offset - start;
    assert (buffer + more)[at..][..|data|] == buffer[at..][..|data|];
  }

  lemma BufferEnd(start: nat, buffer: Vec, data: Vec)
    ensures InBuffer(start, buffer + data, start + |buffer|, data)
  {
    assert (buffer + data)[|buffer|..] == data;
  }

  /** The layout of the pieces so far: each lies in a frame or in the buffer. */
  ghost predicate LaidOut(plains: seq<Vec>, buffer: Vec, offsets: seq<nat>, pieces: seq<Vec>) {
    |offsets| == |pieces|
    && forall k :: 0 <= k < |pieces| ==>
         Covered(plains, offsets[k], pieces[k]) || InBuffer(Length(plains), buffer, offsets[k], pieces[k])
  }

  lemma LaidOutNext(plains: seq<Vec>, buffer: Vec, offsets: seq<nat>, pieces: seq<Vec>, data: Vec)
    requires LaidOut(plains, buffer, offsets, pieces)
    ensures LaidOut(plains, buffer + data, offsets + [Length(plains) + |buffer|], pieces + [data])
  {
    hide Covered, InBuffer, Length;
    BufferEnd(Length(plains), buffer, data);
    forall k | 0 <= k < |pieces|
      ensures Covered(plains, offsets[k], pieces[k]) || InBuffer(Length(plains), buffer + data, offsets[k], pieces[k])
    {
      if InBuffer(Length(plains), buffer, offsets[k], pieces[k]) {
        BufferGrows(Length(plains), buffer, data, offsets[k], pieces[k]);
      }
    }
  }

  lemma LaidOutFlushed(plains: seq<Vec>, buffer: Vec, offsets: seq<nat>, pieces: seq<Vec>)
    requires LaidOut(plains, buffer, offsets, pieces)
    ensures forall k :: 0 <= k < |pieces| ==> Covered(plains + [buffer], offsets[k], pieces[k])
    ensures LaidOut(plains + [buffer], [], offsets, pieces) && Length(plains + [buffer]) == Length(plains) + |buffer|
  {
    hide Covered, InBuffer;
    forall k | 0 <= k < |pieces|
      ensures Covered(plains + [buffer], offsets[k], pieces[k])
    {
      if Covered(plains, offsets[k], pieces[k]) {
        CoveredMore(plains, buffer, offsets[k], pieces[k]);
      } else {
        BufferCovered(plains, buffer, offsets[k], pieces[k]);
      }
    }
    assert (plains + [buffer])[..|plains|] == plains;
  }

  /** Without a remainder every piece lies in a frame, if no piece is empty. */
  lemma AllCovered(plains: seq<Vec>, offsets: seq<nat>, pieces: seq<Vec>)
    requires LaidOut(plains, [], offsets, pieces) && forall k :: 0 <= k < |pieces| ==> pieces[k] != []
    ensures forall k :: 0 <= k < |pieces| ==> Covered(plains, offsets[k], pieces[k])
  {
    hide Covered, Length;
  }

  // ---------------------------------------------------------------- where frames end

  /** The bytes of the pieces from a to b. */
  ghost function Stretch(pieces: seq<Vec>, a: nat, b: nat): Vec
    requires a <= b <= |pieces|
  {
    Sequences.Join(pieces[a..b])
  }

  /** No frame that starts with piece a is full before piece b. */
  ghost predicate NotFull(pieces: seq<Vec>, frameSize: nat, a: nat, b: nat)
    requires b <= |pieces|
  {
    forall e :: a < e < b ==> |Stretch(pieces, a, e)| < frameSize
  }

  /** Frame j holds the pieces from cuts[j] to cuts[j + 1], and was not full before the last of them. */
  ghost predicate Divided(pieces: seq<Vec>, plains: seq<Vec>, cuts: seq<nat>, frameSize: nat) {
    |cuts| == |plains| + 1 && cuts[0] == 0
    && forall j :: 0 <= j < |plains| ==> HoldsPieces(pieces, plains[j], cuts[j], cuts[j + 1], frameSize)
  }

  ghost predicate HoldsPieces(pieces: seq<Vec>, plain: Vec, a: nat, b: nat, frameSize: nat) {
    a < b <= |pieces| && plain == Stretch(pieces, a, b) && NotFull(pieces, frameSize, a, b)
  }

  /** A frame ends as soon as it has frameSize bytes; only the last one may have fewer. */
  ghost predicate Closed(pieces: seq<Vec>, plains: seq<Vec>, cuts: seq<nat>, frameSize: nat) {
    Divided(pieces, plains, cuts, frameSize) && cuts[|plains|] == |pieces|
    && forall j :: 0 <= j < |plains| - 1 ==> |plains[j]| >= frameSize
  }

  lemma StretchNext(pieces: seq<Vec>, a: nat, b: nat)
    requires a <= b < |pieces|
    ensures Stretch(pieces, a, b + 1) == Stretch(pieces, a, b) + pieces[b]
    ensures Stretch(pieces, a, a) == []
  {
    assert pieces[a..b + 1] == pieces[a..b] + [pieces[b]];
    Sequences.JoinSnoc(pieces[a..b], pieces[b]);
  }

  lemma DividedNext(pieces: seq<Vec>, plains: seq<Vec>, cuts: seq<nat>, frameSize: nat, k: nat)
    requires Divided(pieces, plains, cuts, frameSize) && cuts[|plains|] < k <= |pieces|
    requires NotFull(pieces, frameSize, cuts[|plains|], k)
    ensures Divided(pieces, plains + [Stretch(pieces, cuts[|plains|], k)], cuts + [k], frameSize)
  {
    hide Stretch, NotFull;
  }

  /** The frames of a blob are the dictionary and then the compressed frames, and nothing else. */
  ghost function Packed(z: Zip, dict: Vec, plains: seq<Vec>): Vec {
    if plains == [] then dict
    else Packed(z, dict, plains[..|plains| - 1]) + z.compress(dict, plains[|plains| - 1])
  }

  lemma PackedNext(z: Zip, dict: Vec, plains: seq<Vec>, plain: Vec)
    ensures Packed(z, dict, plains + [plain]) == Packed(z, dict, plains) + z.compress(dict, plain)
  {
    assert (plains + [plain])[..|plains|] == plains;
  }

  /** The frames of a blob, one for at least frameSize bytes of chunks but the last. */
  method Layout(z: Zip, dict: Vec, pieces: seq<Vec>, frameSize: nat)
    returns (frames: seq<Frame>, blob: Vec, offsets: seq<nat>, total: nat, ghost plains: seq<Vec>,
             ghost cuts: seq<nat>)
    requires forall k :: 0 <= k < |pieces| ==> pieces[k] != []
    ensures Built(z, dict, frames, plains, blob) && |offsets| == |pieces| && total == Length(pieces)
    ensures forall k :: 0 <= k < |pieces| ==>
              Covered(plains, offsets[k], pieces[k]) && offsets[k] == Length(pieces[..k])
    ensures Closed(pieces, plains, cuts, frameSize) && blob == Packed(z, dict, plains)
  {
    hide *;
    frames, blob, offsets, plains, total := [], dict, [], [], 0;
    var buffer: Vec, start := [], 0;
    NothingBuilt(z, dict);
    cuts := [0];
    NothingDivided(pieces, frameSize, z, dict);
    for k := 0 to |pieces|
      invariant Built(z, dict, frames, plains, blob) && start == Length(plains) && total == start + |buffer|
      invariant |offsets| == k && total == Length(pieces[..k]) && LaidOut(plains, buffer, offsets, pieces[..k])
      invariant forall j :: 0 <= j < k ==> offsets[j] == Length(pieces[..j])
      invariant Divided(pieces, plains, cuts, frameSize) && |cuts| == |plains| + 1 && cuts[|plains|] <= k
      invariant buffer == Stretch(pieces, cuts[|plains|], k) && (buffer == [] <==> cuts[|plains|] == k)
      invariant NotFull(pieces, frameSize, cuts[|plains|], k) && (buffer != [] ==> |buffer| < frameSize)
      invariant (forall j :: 0 <= j < |plains| ==> |plains[j]| >= frameSize) && blob == Packed(z, dict, plains)
    {
      LaidOutNext(plains, buffer, offsets, pieces[..k], pieces[k]);
      assert pieces[..k] + [pieces[k]] == pieces[..k + 1];
      LengthNext(pieces, k);
      StretchNext(pieces, cuts[|plains|], k);
      NotFullNext(pieces, frameSize, cuts[|plains|], k);
      offsets := offsets + [total];
      buffer, total := buffer + pieces[k], total + |pieces[k]|;
      if |buffer| >= frameSize {
        assert buffer != [];
        LaidOutFlushed(plains, buffer, offsets, pieces[..k + 1]);
        DividedNext(pieces, plains, cuts, frameSize, k + 1);
        cuts := cuts + [k + 1];
        frames, blob, start, plains := Flush(z, dict, frames, blob, buffer, start, plains);
        buffer := [];
        NothingStretched(pieces, frameSize, k + 1);
      }
    }
    assert pieces[..|pieces|] == pieces;
    if buffer != [] {
      LaidOutFlushed(plains, buffer, offsets, pieces);
      DividedNext(pieces, plains, cuts, frameSize, |pieces|);
      cuts := cuts + [|pieces|];
      frames, blob, start, plains := Flush(z, dict, frames, blob, buffer, start, plains);
    }
    AllCovered(plains, offsets, pieces);
    ClosedNow(pieces, plains, cuts, frameSize);
  }

  method Flush(z: Zip, dict: Vec, frames: seq<Frame>, blob: Vec, buffer: Vec, start: nat, ghost plains: seq<Vec>)
    returns (more: seq<Frame>, longer: Vec, next: nat, ghost full: seq<Vec>)
    requires Built(z, dict, frames, plains, blob) && buffer != [] && start == Length(plains)
    requires blob == Packed(z, dict, plains)
    ensures full == plains + [buffer] && next == start + |buffer| && Built(z, dict, more, full, longer)
    ensures longer == Packed(z, dict, full)
  {
    hide *;
    PackedNext(z, dict, plains, buffer);
    var comp := z.compress(dict, buffer);
    FrameFlushed(z, dict, frames, plains, blob, buffer);
    more, longer := frames + [Frame(start, |buffer|, |blob|, |comp|)], blob + comp;
    next, full := start + |buffer|, plains + [buffer];
  }

  lemma NothingBuilt(z: Zip, dict: Vec)
    ensures Built(z, dict, [], [], dict) && Length([]) == 0 && LaidOut([], [], [], [])
  {}

  lemma NothingDivided(pieces: seq<Vec>, frameSize: nat, z: Zip, dict: Vec)
    ensures Divided(pieces, [], [0], frameSize) && Packed(z, dict, []) == dict
    ensures Stretch(pieces, 0, 0) == [] && NotFull(pieces, frameSize, 0, 0)
  {}

  lemma NothingStretched(pieces: seq<Vec>, frameSize: nat, k: nat)
    requires k <= |pieces|
    ensures Stretch(pieces, k, k) == [] && NotFull(pieces, frameSize, k, k)
  {}

  /** One more piece, if those before it did not fill the frame. */
  lemma NotFullNext(pieces: seq<Vec>, frameSize: nat, a: nat, k: nat)
    requires a <= k < |pieces| && NotFull(pieces, frameSize, a, k)
    requires a < k ==> |Stretch(pieces, a, k)| < frameSize
    ensures NotFull(pieces, frameSize, a, k + 1)
  {
    hide Stretch;
  }

  lemma ClosedNow(pieces: seq<Vec>, plains: seq<Vec>, cuts: seq<nat>, frameSize: nat)
    requires Divided(pieces, plains, cuts, frameSize) && |cuts| == |plains| + 1 && cuts[|plains|] == |pieces|
    requires forall j :: 0 <= j < |plains| - 1 ==> |plains[j]| >= frameSize
    ensures Closed(pieces, plains, cuts, frameSize)
  {
    hide Divided;
  }

  lemma LengthNext(pieces: seq<Vec>, k: nat)
    requires k < |pieces|
    ensures Length(pieces[..k + 1]) == Length(pieces[..k]) + |pieces[k]|
  {
    assert pieces[..k + 1][..k] == pieces[..k];
  }

  // ---------------------------------------------------------------- reading frames

  /** Decompressing frame i gives what was compressed into it. */
  lemma PlainBack(z: Zip, row: BatchRow, dict: Vec, plains: seq<Vec>, blob: Vec, i: nat)
    requires Inverse(z) && Built(z, dict, row.frames, plains, blob) && row.dictLen == |dict| && i < |plains|
    ensures Plain(z, row, blob, i) == plains[i]
  {
    hide Length;
    assert FrameAt(z, dict, row.frames, plains, blob, i);
    assert Part(blob, 0, |dict|) == dict;
  }

  lemma CoveredInFrame(z: Zip, row: BatchRow, dict: Vec, plains: seq<Vec>, blob: Vec, offset: nat, data: Vec)
    requires Inverse(z) && Built(z, dict, row.frames, plains, blob) && row.dictLen == |dict|
    requires Covered(plains, offset, data) && data != []
    ensures InSomeFrame(z, row, blob, offset, data)
  {
    var i: nat :| Inside(plains, offset, data, i);
    PlainBack(z, row, dict, plains, blob, i);
    assert FrameAt(z, dict, row.frames, plains, blob, i);
    hide Length, Built, Plain;
    assert InFrame(z, row, blob, offset, data, i);
  }

  lemma BuiltConsecutive(z: Zip, dict: Vec, frames: seq<Frame>, plains: seq<Vec>, blob: Vec)
    requires Built(z, dict, frames, plains, blob)
    ensures Consecutive(frames)
  {
    forall i: nat | i < |frames|
      ensures frames[i].rawLen > 0 && (i == 0 ==> frames[i].rawStart == 0)
              && (i > 0 ==> frames[i].rawStart == frames[i - 1].rawStart + frames[i - 1].rawLen)
    {
      assert FrameAt(z, dict, frames, plains, blob, i);
      if i > 0 {
        assert FrameAt(z, dict, frames, plains, blob, i - 1);
        LengthNext(plains, i - 1);
      }
    }
  }

  lemma {:induction false} LaterStart(frames: seq<Frame>, i: nat, j: nat)
    requires Consecutive(frames) && i < j < |frames|
    ensures frames[i].rawStart + frames[i].rawLen <= frames[j].rawStart
  {
    if i + 1 < j {
      LaterStart(frames, i, j - 1);
    }
  }

  /** The last frame that starts at or before the offset. */
  method FindFrame(frames: seq<Frame>, offset: nat) returns (r: int)
    ensures -1 <= r < |frames|
    ensures r >= 0 ==> frames[r].rawStart <= offset
    ensures forall i :: 0 <= i < |frames| && frames[i].rawStart <= offset ==>
              r >= 0 && frames[i].rawStart <= frames[r].rawStart
  {
    r := -1;
    for i := 0 to |frames|
      invariant -1 <= r < i && (r >= 0 ==> frames[r].rawStart <= offset)
      invariant forall j :: 0 <= j < i && frames[j].rawStart <= offset ==>
                  r >= 0 && frames[j].rawStart <= frames[r].rawStart
    {
      if frames[i].rawStart <= offset && (r < 0 || frames[i].rawStart > frames[r].rawStart) {
        r := i;
      }
    }
  }

  /** The greatest start at or before a chunk's offset is that of the frame that holds the whole chunk. */
  lemma FoundFrame(z: Zip, row: BatchRow, blob: Vec, offset: nat, data: Vec, r: int)
    requires Consecutive(row.frames) && InSomeFrame(z, row, blob, offset, data) && data != []
    requires -1 <= r < |row.frames| && (r >= 0 ==> row.frames[r].rawStart <= offset)
    requires forall i :: 0 <= i < |row.frames| && row.frames[i].rawStart <= offset ==>
               r >= 0 && row.frames[i].rawStart <= row.frames[r].rawStart
    ensures r >= 0 && InFrame(z, row, blob, offset, data, r)
  {
    var i: nat :| InFrame(z, row, blob, offset, data, i);
    hide Plain;
    if i < r {
      LaterStart(row.frames, i, r);
    } else if r < i {
      LaterStart(row.frames, r, i);
    }
  }
}
