/** The drain loop of CTcpService::recv_message (net/src/TcpService.cpp): read into the buffer, move the write
    cursor, add room after a full read, until the socket has nothing more. */
module RecvLoop {
  import opened ByteOrder
  import opened IOBuffer
  import opened Words

  const OFFSET: nat := 1048576  // 1 MB, the size of every read

  datatype Outcome = Closed | Failed | Message

  function Flatten(chunks: seq<seq<Byte>>): seq<Byte> {
    if chunks == [] then [] else Flatten(chunks[..|chunks| - 1]) + chunks[|chunks| - 1]
  }

  /** The room behind the write cursor when the read after these chunks is made, if all of them fitted. */
  function RoomAfter(chunks: seq<seq<Byte>>): int {
    if chunks == [] then OFFSET
    else
      var chunk := chunks[|chunks| - 1];
      if |chunk| == OFFSET then OFFSET else RoomAfter(chunks[..|chunks| - 1]) - |chunk|
  }

  /** Every chunk fits the room there is for it. */
  predicate AllFit(chunks: seq<seq<Byte>>) {
    forall i :: 0 <= i < |chunks| ==> |chunks[i]| <= RoomAfter(chunks[..i])
  }

  /** What read(2) may return: between one byte and the count asked for. */
  predicate Reads(chunks: seq<seq<Byte>>) {
    forall i :: 0 <= i < |chunks| ==> 1 <= |chunks[i]| <= OFFSET
  }

  /** The number of full reads before the first short one. */
  function FullReads(chunks: seq<seq<Byte>>): (k: nat)
    ensures k <= |chunks|
    ensures forall i :: 0 <= i < k ==> |chunks[i]| == OFFSET
    ensures k < |chunks| ==> |chunks[k]| != OFFSET
  {
    if chunks == [] || |chunks[0]| != OFFSET then 0 else 1 + FullReads(chunks[1..])
  }

  lemma RoomAfterFull(chunks: seq<seq<Byte>>)
    requires forall i :: 0 <= i < |chunks| ==> |chunks[i]| == OFFSET
    ensures RoomAfter(chunks) == OFFSET
  {
  }

  /** Reads that start with a short one and total at most one megabyte end with a short one. */
  lemma ShortTail(tail: seq<seq<Byte>>)
    requires tail != [] && Reads(tail) && |tail[0]| != OFFSET && |Flatten(tail)| <= OFFSET
    ensures |tail[|tail| - 1]| != OFFSET
  {
    if |tail| == 1 {
    } else {
      FlattenGrows(tail[..|tail| - 1]);
    }
  }

  lemma SliceSnoc(chunks: seq<seq<Byte>>, k: nat, i: nat)
    requires k <= i < |chunks|
    ensures chunks[k..i + 1][..i - k] == chunks[k..i] && chunks[k..i + 1][i - k] == chunks[i]
    ensures |Flatten(chunks[k..i + 1])| == |Flatten(chunks[k..i])| + |chunks[i]|
  {
    assert chunks[k..i + 1][..i - k] == chunks[k..i];
  }

  lemma RoomSnoc(chunks: seq<seq<Byte>>, i: nat)
    requires i < |chunks|
    ensures RoomAfter(chunks[..i + 1])
         == if |chunks[i]| == OFFSET then OFFSET else RoomAfter(chunks[..i]) - |chunks[i]|
  {
    assert chunks[..i + 1][..i] == chunks[..i];
  }

  /** While what follows the full reads fits one megabyte it is made of short reads, and the room is what is left. */
  lemma {:induction false} RoomAfterShort(chunks: seq<seq<Byte>>, i: nat)
    requires Reads(chunks) && FullReads(chunks) <= i <= |chunks|
    requires |Flatten(chunks[FullReads(chunks)..i])| <= OFFSET
    ensures RoomAfter(chunks[..i]) == OFFSET - |Flatten(chunks[FullReads(chunks)..i])|
  {
    var k := FullReads(chunks);
    if i == k {
      RoomAfterFull(chunks[..k]);
    } else {
      LastIsShort(chunks, k, i);
      hide Flatten, RoomAfter, FullReads, Reads;
      SliceSnoc(chunks, k, i - 1);
      RoomAfterShort(chunks, i - 1);
      RoomSnoc(chunks, i - 1);
    }
  }

  lemma LastIsShort(chunks: seq<seq<Byte>>, k: nat, i: nat)
    requires Reads(chunks) && k < i <= |chunks| && |chunks[k]| != OFFSET && |Flatten(chunks[k..i])| <= OFFSET
    ensures |chunks[i - 1]| != OFFSET
  {
    hide Flatten;
    ShortTail(chunks[k..i]);
  }

  lemma {:induction false} FlattenGrows(chunks: seq<seq<Byte>>)
    requires chunks != []
    ensures |Flatten(chunks)| >= |chunks[0]|
  {
    if |chunks| == 1 {
    } else {
      FlattenGrows(chunks[..|chunks| - 1]);
    }
  }

  lemma {:induction false} FlattenPrefix(chunks: seq<seq<Byte>>, i: nat)
    requires i <= |chunks|
    ensures |Flatten(chunks[..i])| <= |Flatten(chunks)|
  {
    if i == |chunks| {
      assert chunks[..i] == chunks;
    } else {
      FlattenPrefix(chunks[..|chunks| - 1], i);
      assert chunks[..|chunks| - 1][..i] == chunks[..i];
    }
  }

  /** Main theorem: the loop stays inside its buffer exactly when everything from the first short read on fits one
      megabyte. Room is added after a full read only, so after a short read the buffer never grows again. */
  lemma AllFitIff(chunks: seq<seq<Byte>>)
    requires Reads(chunks)
    ensures AllFit(chunks) <==> |Flatten(chunks[FullReads(chunks)..])| <= OFFSET
  {
    var k := FullReads(chunks);
    if |Flatten(chunks[k..])| <= OFFSET {
      forall i | 0 <= i < |chunks| ensures |chunks[i]| <= RoomAfter(chunks[..i]) {
        ChunkFits(chunks, i);
      }
    } else {
      var i := FirstOver(chunks[k..]);
      ChunkOverruns(chunks, k + i);
    }
  }

  lemma ChunkFits(chunks: seq<seq<Byte>>, i: nat)
    requires Reads(chunks) && i < |chunks|
    requires |Flatten(chunks[FullReads(chunks)..])| <= OFFSET
    ensures |chunks[i]| <= RoomAfter(chunks[..i])
  {
    var k := FullReads(chunks);
    if i < k {
      RoomAfterFull(chunks[..i]);
    } else {
      FlattenPrefix(chunks[k..], i + 1 - k);
      assert chunks[k..][..i + 1 - k] == chunks[k..i + 1];
      SliceSnoc(chunks, k, i);
      RoomAfterShort(chunks, i);
    }
  }

  lemma ChunkOverruns(chunks: seq<seq<Byte>>, i: nat)
    requires Reads(chunks) && FullReads(chunks) <= i < |chunks|
    requires var tail := chunks[FullReads(chunks)..]; var j := i - FullReads(chunks);
      |Flatten(tail[..j])| <= OFFSET < |Flatten(tail[..j + 1])|
    ensures |chunks[i]| > RoomAfter(chunks[..i])
  {
    var k := FullReads(chunks);
    assert chunks[k..][..i - k] == chunks[k..i] && chunks[k..][..i + 1 - k] == chunks[k..i + 1];
    SliceSnoc(chunks, k, i);
    RoomAfterShort(chunks, i);
  }

  /** The chunk that takes the total over one megabyte. */
  lemma {:induction false} FirstOver(chunks: seq<seq<Byte>>) returns (i: nat)
    requires |Flatten(chunks)| > OFFSET
    ensures i < |chunks| && |Flatten(chunks[..i])| <= OFFSET < |Flatten(chunks[..i + 1])|
  {
    var init := chunks[..|chunks| - 1];
    if |Flatten(init)| <= OFFSET {
      i := |chunks| - 1;
      assert chunks[..i + 1] == chunks;
    } else {
      i := FirstOver(init);
      assert init[..i] == chunks[..i] && init[..i + 1] == chunks[..i + 1];
    }
  }

  /** If only the last read is short, every read that returns bytes is made with a whole megabyte of room. */
  lemma FullReadsHaveRoom(chunks: seq<seq<Byte>>, i: nat)
    requires Reads(chunks) && i < |chunks|
    requires forall j :: 0 <= j < |chunks| - 1 ==> |chunks[j]| == OFFSET
    ensures RoomAfter(chunks[..i]) == OFFSET && AllFit(chunks)
  {
    RoomAfterFull(chunks[..i]);
    forall j | 0 <= j < |chunks| ensures |chunks[j]| <= RoomAfter(chunks[..j]) {
      RoomAfterFull(chunks[..j]);
    }
  }

  /** The loop on the chunks the socket delivers, then a last read that delivers none: 0 at the end of the stream,
      -2 when there is nothing to read now, -1 on an error. The model stops where a chunk would run past the end of
      the vector. The total has to leave room for one more resize within an int. */
  method Receive(chunks: seq<seq<Byte>>, last: int)
    returns (buffer: IOBuffer, allReadLen: nat, overrun: bool, outcome: Outcome)
    requires Reads(chunks) && -2 <= last <= 0
    requires |Flatten(chunks)| + OFFSET <= INT_MAX
    ensures fresh(buffer) && buffer.Valid()
    ensures overrun <==> !AllFit(chunks)
    ensures !overrun ==>
      && buffer.Contents() == Flatten(chunks) && allReadLen == |Flatten(chunks)|
      && buffer.Room() == RoomAfter(chunks)
      && outcome == if chunks == [] then Closed else if last == -1 then Failed else Message
  {
    hide Flatten, RoomAfter, AllFit, Drained, Reads;
    buffer := new IOBuffer(OFFSET);
    allReadLen, overrun, outcome := 0, false, Closed;
    var i := 0;
    NothingDrained(buffer);
    assert chunks[..0] == [];
    while i < |chunks|
      invariant 0 <= i <= |chunks| && fresh(buffer) && fresh(buffer.base)
      invariant Drained(buffer, chunks[..i]) && AllFit(chunks[..i])
      invariant allReadLen == |Flatten(chunks[..i])|
      invariant buffer.Valid()
    {
      PrefixSnoc(chunks, i);
      var stored := Store(buffer, chunks[i], chunks[..i]);
      if !stored {
        overrun := true;
        return;
      }
      allReadLen := allReadLen + |chunks[i]|;
      i := i + 1;
    }
    assert chunks[..i] == chunks;
    DrainedMeans(buffer, chunks);
    NothingRead(chunks);
    if allReadLen == 0 {
      outcome := Closed;
    } else if last < 0 && last != -2 {
      outcome := Failed;
    } else {
      outcome := Message;
    }
  }

  /** The buffer holds these chunks and nothing else, with the room the loop left. */
  ghost predicate Drained(buffer: IOBuffer, chunks: seq<seq<Byte>>)
    reads buffer, buffer.base
  {
    && buffer.Valid() && buffer.rd == 0
    && buffer.Contents() == Flatten(chunks) && buffer.Room() == RoomAfter(chunks) <= OFFSET
  }

  lemma PrefixSnoc(chunks: seq<seq<Byte>>, i: nat)
    requires i < |chunks|
    ensures chunks[..i + 1] == chunks[..i] + [chunks[i]]
    ensures |Flatten(chunks[..i])| + |chunks[i]| == |Flatten(chunks[..i + 1])| <= |Flatten(chunks)|
    ensures Reads(chunks) ==> 1 <= |chunks[i]|
    ensures |chunks[i]| <= RoomAfter(chunks[..i]) && AllFit(chunks[..i]) ==> AllFit(chunks[..i + 1])
    ensures |chunks[i]| > RoomAfter(chunks[..i]) ==> !AllFit(chunks)
  {
    assert chunks[..i + 1][..i] == chunks[..i];
    assert chunks[..i + 1] == chunks[..i] + [chunks[i]];
    assert forall j :: 0 <= j <= i ==> chunks[..i + 1][..j] == chunks[..j] && chunks[..i][..j] == chunks[..j];
    FlattenPrefix(chunks, i + 1);
  }

  lemma NothingDrained(buffer: IOBuffer)
    requires buffer.Valid() && buffer.rd == 0 && buffer.Contents() == [] && buffer.Room() == OFFSET
    ensures Drained(buffer, []) && Flatten([]) == [] && AllFit([])
  {
  }

  lemma DrainedMeans(buffer: IOBuffer, chunks: seq<seq<Byte>>)
    requires Drained(buffer, chunks)
    ensures buffer.Valid() && buffer.Contents() == Flatten(chunks) && buffer.Room() == RoomAfter(chunks)
  {
  }

  lemma NothingRead(chunks: seq<seq<Byte>>)
    requires Reads(chunks)
    ensures Flatten(chunks) == [] <==> chunks == []
  {
    if chunks != [] {
      FlattenGrows(chunks);
    }
  }

  lemma NextChunk(chunks: seq<seq<Byte>>, chunk: seq<Byte>)
    ensures Flatten(chunks + [chunk]) == Flatten(chunks) + chunk
    ensures RoomAfter(chunks + [chunk]) == if |chunk| == OFFSET then OFFSET else RoomAfter(chunks) - |chunk|
  {
    assert (chunks + [chunk])[..|chunks|] == chunks;
  }

  /** One round of the loop: the socket's bytes land behind the write cursor, skip moves the cursor over them, and a
      full read that leaves less than a megabyte makes room for the next. */
  method Store(buffer: IOBuffer, chunk: seq<Byte>, ghost sofar: seq<seq<Byte>>) returns (stored: bool)
    requires Drained(buffer, sofar) && 1 <= |chunk|
    requires |Flatten(sofar)| + |chunk| + OFFSET <= INT_MAX
    modifies buffer, buffer.base
    ensures stored == (|chunk| <= RoomAfter(sofar)) && buffer.Valid()
    ensures stored ==> Drained(buffer, sofar + [chunk])
    ensures buffer.base == old(buffer.base) || fresh(buffer.base)
  {
    stored := |chunk| <= buffer.base.Length - buffer.wr;
    if stored {
      NextChunk(sofar, chunk);
      hide Flatten, RoomAfter;
      buffer.Deposit(chunk);
      var moved := buffer.Skip(|chunk|);
      if buffer.base.Length - buffer.wr < OFFSET && |chunk| == OFFSET {
        var threw := buffer.Resize(buffer.wr - buffer.rd + OFFSET);
      }
    }
  }

  /** An input for which the loop leaves its buffer: two reads of 600000 bytes. */
  lemma TwoShortReads() returns (chunks: seq<seq<Byte>>)
    ensures Reads(chunks) && |chunks| == 2 && |chunks[0]| == |chunks[1]| == 600000
    ensures !AllFit(chunks) && |chunks[1]| > RoomAfter(chunks[..1])
  {
    var chunk: seq<Byte> := seq(600000, _ => 0);
    chunks := [chunk, chunk];
    assert chunks[..1] == [chunk] && chunks[..1][..0] == [];
    assert RoomAfter([]) == OFFSET;
    assert RoomAfter([chunk]) == OFFSET - 600000;
  }
}
