/** A CIOBufferPtr seen as a stream: any mix of typed writes, reads that keep to what was written, and growth.
    The bytes and the room are Contents() and Room() of IOBuffer.dfy, whose methods do to them exactly what the
    acts below do. */
module ByteStream {
  import opened ByteOrder
  import opened IOBuffer
  import opened Words
  import opened Wrappers

  /** An integer of 1, 2, 4 or 8 bytes, or a string. */
  datatype Item = Num(width: nat, value: int) | Str(bytes: seq<Byte>)
  datatype Shape = NumShape(width: nat) | TextShape(len: nat)

  predicate Wellformed(x: Item) {
    if x.Num? then IsWidth(x.width) && InRange(x.width, x.value) else x.bytes != []
  }

  function ShapeOf(x: Item): Shape {
    if x.Num? then NumShape(x.width) else TextShape(|x.bytes|)
  }

  function Size(sh: Shape): nat {
    if sh.NumShape? then sh.width else sh.len
  }

  function Encode(x: Item): (bs: seq<Byte>)
    requires Wellformed(x)
    ensures |bs| == Size(ShapeOf(x))
  {
    if x.Num? then WriteBytes(x.width, x.value) else x.bytes
  }

  function Decode(sh: Shape, bs: seq<Byte>): Item
    requires sh.NumShape? ==> IsWidth(sh.width)
    requires |bs| == Size(sh)
  {
    if sh.NumShape? then Num(sh.width, ReadValue(sh.width, bs)) else Str(bs)
  }

  /** What an item reads back as, and when that is the item itself. */
  function Back(x: Item): Item
    requires Wellformed(x)
  {
    if x.Num? then Num(x.width, ReadBack(x.width, x.value)) else x
  }

  predicate Faithful(x: Item) {
    x.Num? ==>
      || x.width == 4
      || (x.width == 8 && 0 <= x.value < TWO_32)
      || (x.width <= 2 && (x.value == 0 || x.value == -1))
  }

  lemma DecodeEncode(x: Item)
    requires Wellformed(x)
    ensures Decode(ShapeOf(x), Encode(x)) == Back(x)
    ensures Back(x) == x <==> Faithful(x)
  {
    if x.Num? {
      RoundTripValue(x.width, x.value);
    }
  }

  /** A write, a read in the shape of the oldest item not read yet, or a resize that adds room. */
  datatype Act = Put(item: Item) | Get | Grow(n: nat)

  datatype Stream = Stream(
    bytes: seq<Byte>,     // the unread bytes
    room: nat,            // the bytes that still fit
    puts: seq<Item>,      // the writes that were accepted
    gets: seq<Item>)      // what the reads returned

  predicate AllWellformed(xs: seq<Item>) {
    forall i :: 0 <= i < |xs| ==> Wellformed(xs[i])
  }

  predicate Script(acts: seq<Act>) {
    forall i :: 0 <= i < |acts| && acts[i].Put? ==> Wellformed(acts[i].item)
  }

  function EncodeAll(xs: seq<Item>): seq<Byte>
    requires AllWellformed(xs)
  {
    if xs == [] then [] else Encode(xs[0]) + EncodeAll(xs[1..])
  }

  function BackAll(xs: seq<Item>): (r: seq<Item>)
    requires AllWellformed(xs)
    ensures |r| == |xs|
    ensures forall i :: 0 <= i < |xs| ==> r[i] == Back(xs[i])
  {
    if xs == [] then [] else [Back(xs[0])] + BackAll(xs[1..])
  }

  /** A write with too little room is refused and changes nothing; a read beyond the writes is not made. */
  function Do(s: Stream, act: Act): Stream
    requires act.Put? ==> Wellformed(act.item)
  {
    match act
    case Put(x) =>
      if Size(ShapeOf(x)) <= s.room
      then s.(bytes := s.bytes + Encode(x), room := s.room - Size(ShapeOf(x)), puts := s.puts + [x])
      else s
    case Grow(n) => s.(room := s.room + n)
    case Get =>
      if |s.gets| >= |s.puts| then s
      else
        var sh := ShapeOf(s.puts[|s.gets|]);
        if Size(sh) > |s.bytes| || (sh.NumShape? && !IsWidth(sh.width)) then s
        else s.(bytes := s.bytes[Size(sh)..], gets := s.gets + [Decode(sh, s.bytes[..Size(sh)])])
  }

  function Play(room: nat, acts: seq<Act>): Stream
    requires Script(acts)
  {
    if acts == [] then Stream([], room, [], [])
    else Do(Play(room, acts[..|acts| - 1]), acts[|acts| - 1])
  }

  predicate Framed(s: Stream) {
    && AllWellformed(s.puts) && |s.gets| <= |s.puts|
    && s.gets == BackAll(s.puts[..|s.gets|])
    && s.bytes == EncodeAll(s.puts[|s.gets|..])
  }

  lemma {:induction false} EncodeSnoc(xs: seq<Item>, x: Item)
    requires AllWellformed(xs) && Wellformed(x)
    ensures EncodeAll(xs + [x]) == EncodeAll(xs) + Encode(x)
  {
    if xs == [] {
      assert [x][1..] == [];
    } else {
      assert (xs + [x])[1..] == xs[1..] + [x];
      EncodeSnoc(xs[1..], x);
    }
  }

  lemma PutKeepsFramed(s: Stream, x: Item)
    requires Framed(s) && Wellformed(x) && Size(ShapeOf(x)) <= s.room
    ensures Framed(Do(s, Put(x)))
  {
    var n := |s.gets|;
    var puts := s.puts + [x];
    assert puts[..n] == s.puts[..n] && puts[n..] == s.puts[n..] + [x];
    EncodeSnoc(s.puts[n..], x);
  }

  lemma GetKeepsFramed(s: Stream)
    requires Framed(s) && |s.gets| < |s.puts|
    ensures var s' := Do(s, Get); Framed(s') && |s'.gets| == |s.gets| + 1
  {
    var n := |s.gets|;
    var x := s.puts[n];
    assert s.puts[n..][0] == x && s.puts[n..][1..] == s.puts[n + 1..];
    assert s.bytes == Encode(x) + EncodeAll(s.puts[n + 1..]);
    assert s.bytes[..Size(ShapeOf(x))] == Encode(x);
    DecodeEncode(x);
    assert s.puts[..n + 1] == s.puts[..n] + [x];
    assert BackAll(s.puts[..n + 1]) == BackAll(s.puts[..n]) + [Back(x)];
  }

  lemma {:induction false} PlayIsFramed(room: nat, acts: seq<Act>)
    requires Script(acts)
    ensures Framed(Play(room, acts))
  {
    if acts == [] {
    } else {
      var s := Play(room, acts[..|acts| - 1]);
      PlayIsFramed(room, acts[..|acts| - 1]);
      match acts[|acts| - 1]
      case Put(x) => if Size(ShapeOf(x)) <= s.room { PutKeepsFramed(s, x); }
      case Get => if |s.gets| < |s.puts| { GetKeepsFramed(s); }
      case Grow(_) =>
    }
  }

  /** Main theorem: for every script of writes of every type, reads and growth, in any interleaving, the reads
      return what each accepted write reads back as, in order; the buffer holds exactly the encodings of the writes
      not read yet; and the values come back unchanged exactly when every one of them is faithful. */
  lemma MixedStreamRoundTrip(room: nat, acts: seq<Act>)
    requires Script(acts)
    ensures var s := Play(room, acts);
      && AllWellformed(s.puts) && |s.gets| <= |s.puts|
      && s.gets == BackAll(s.puts[..|s.gets|])
      && s.bytes == EncodeAll(s.puts[|s.gets|..])
      && (s.gets == s.puts[..|s.gets|] <==> forall i :: 0 <= i < |s.gets| ==> Faithful(s.puts[i]))
  {
    var s := Play(room, acts);
    PlayIsFramed(room, acts);
    forall i | 0 <= i < |s.gets| ensures s.gets[i] == s.puts[i] <==> Faithful(s.puts[i]) {
      assert s.puts[..|s.gets|][i] == s.puts[i];
      DecodeEncode(s.puts[i]);
    }
    if forall i :: 0 <= i < |s.gets| ==> Faithful(s.puts[i]) {
      assert s.gets == s.puts[..|s.gets|];
    } else {
      var i :| 0 <= i < |s.gets| && !Faithful(s.puts[i]);
      assert s.gets[i] != s.puts[..|s.gets|][i];
    }
  }

  /** Every read that a pending write entitles to is answered: nothing outstanding is ever too short to read. */
  lemma ReadsAreAnswered(room: nat, acts: seq<Act>)
    requires Script(acts)
    ensures var s := Play(room, acts);
      |s.gets| < |s.puts| ==> |Do(s, Get).gets| == |s.gets| + 1
  {
    var s := Play(room, acts);
    PlayIsFramed(room, acts);
    if |s.gets| < |s.puts| {
      GetKeepsFramed(s);
    }
  }

  predicate Represents(buffer: IOBuffer, s: Stream)
    reads buffer, buffer.base
  {
    buffer.rd <= buffer.wr <= buffer.base.Length <= INT_MAX
    && buffer.base[buffer.rd..buffer.wr] == s.bytes && buffer.base.Length - buffer.wr == s.room
  }

  function Added(act: Act): nat {
    if act.Grow? then act.n else 0
  }

  /** The refinement: a buffer that represents a stream represents the next one after the call that belongs to the
      act. A write answers whether the stream took it, and a read hands out the item the stream records. */
  method Perform(buffer: IOBuffer, act: Act, s: Stream) returns (item: Option<Item>, taken: bool)
    requires Framed(s) && Represents(buffer, s)
    requires act.Put? ==> Wellformed(act.item)
    requires buffer.base.Length + Added(act) <= INT_MAX
    modifies buffer, buffer.base
    ensures Represents(buffer, Do(s, act))
    ensures item == if |Do(s, act).gets| > |s.gets| then Some(Do(s, act).gets[|s.gets|]) else None
    ensures taken == (|Do(s, act).puts| > |s.puts|)
    ensures buffer.base.Length == old(buffer.base.Length) + Added(act)
    ensures buffer.base == old(buffer.base) || fresh(buffer.base)
  {
    item, taken := None, false;
    match act
    case Put(Num(width, value)) =>
      var ret := buffer.WriteInt(width, value);
      taken := ret != -1;
    case Put(Str(bytes)) =>
      var ret := buffer.WriteText(bytes);
      taken := ret != 0;
    case Grow(n) =>
      var threw := buffer.Resize(buffer.base.Length + n);
    case Get =>
      if |s.gets| < |s.puts| {
        item := PerformGet(buffer, s);
      }
  }

  method PerformGet(buffer: IOBuffer, s: Stream) returns (item: Option<Item>)
    requires Framed(s) && Represents(buffer, s) && |s.gets| < |s.puts|
    modifies buffer
    ensures Represents(buffer, Do(s, Get)) && buffer.base == old(buffer.base)
    ensures |Do(s, Get).gets| > |s.gets| && item == Some(Do(s, Get).gets[|s.gets|]) && Do(s, Get).puts == s.puts
  {
    GetKeepsFramed(s);
    hide BackAll, Encode;
    match s.puts[|s.gets|]
    case Num(width, _) =>
      assert s.bytes == EncodeAll(s.puts[|s.gets|..]);
      var ret, v := buffer.ReadInt(width);
      item := Some(Num(width, v));
    case Str(bytes) =>
      assert s.bytes == EncodeAll(s.puts[|s.gets|..]);
      var r := buffer.ReadText(|bytes|);
      item := Some(Str(r.bytes));
  }

  /** The length of the vector after a script. */
  function Length(room: nat, acts: seq<Act>): nat {
    if acts == [] then room else Length(room, acts[..|acts| - 1]) + Added(acts[|acts| - 1])
  }

  lemma {:induction false} LengthGrows(room: nat, acts: seq<Act>, i: nat)
    requires i <= |acts|
    ensures Length(room, acts[..i]) <= Length(room, acts)
  {
    if i == |acts| {
      assert acts[..i] == acts;
    } else {
      LengthGrows(room, acts[..|acts| - 1], i);
      assert acts[..|acts| - 1][..i] == acts[..i];
    }
  }

  /** What the accepted writes take up. */
  function TotalSize(puts: seq<Item>): nat {
    if puts == [] then 0 else TotalSize(puts[..|puts| - 1]) + Size(ShapeOf(puts[|puts| - 1]))
  }

  lemma RoomStep(s: Stream, act: Act)
    requires act.Put? ==> Wellformed(act.item)
    ensures Do(s, act).room + TotalSize(Do(s, act).puts) == s.room + TotalSize(s.puts) + Added(act)
  {
    if act.Put? && Do(s, act) != s {
      assert (s.puts + [act.item])[..|s.puts|] == s.puts;
    }
  }

  /** In every script the room is the length of the vector less everything ever written: reads give none back. */
  lemma {:induction false} RoomLaw(room: nat, acts: seq<Act>)
    requires Script(acts)
    ensures Play(room, acts).room + TotalSize(Play(room, acts).puts) == Length(room, acts)
  {
    if acts == [] {
    } else {
      RoomLaw(room, acts[..|acts| - 1]);
      RoomStep(Play(room, acts[..|acts| - 1]), acts[|acts| - 1]);
      hide Do;
    }
  }

  /** So a write is taken exactly when everything written before it and the item itself fit the vector; a refused one
      leaves the stream as it was. */
  lemma WriteTakenIff(room: nat, acts: seq<Act>, x: Item)
    requires Script(acts) && Wellformed(x)
    ensures var s := Play(room, acts);
      if TotalSize(s.puts) + Size(ShapeOf(x)) <= Length(room, acts)
      then Do(s, Put(x)).puts == s.puts + [x] else Do(s, Put(x)) == s
  {
    RoomLaw(room, acts);
  }

  /** A whole script on a new buffer: the values its reads hand out are the ones MixedStreamRoundTrip speaks about. */
  method PerformAll(room: nat, acts: seq<Act>) returns (buffer: IOBuffer, items: seq<Item>)
    requires Script(acts) && Length(room, acts) <= INT_MAX
    ensures Represents(buffer, Play(room, acts))
    ensures items == Play(room, acts).gets
  {
    LengthGrows(room, acts, 0);
    buffer := new IOBuffer(room);
    items := [];
    var s := Stream([], room, [], []);
    var i := 0;
    assert Represents(buffer, s) && s == Play(room, acts[..0]);
    hide Do, Represents, Play, Length, Framed, Script;
    while i < |acts|
      invariant 0 <= i <= |acts| && Script(acts[..i])
      invariant s == Play(room, acts[..i]) && Represents(buffer, s) && items == s.gets
      invariant buffer.base.Length == Length(room, acts[..i])
      invariant fresh(buffer) && fresh(buffer.base)
    {
      ScriptNext(room, acts, i);
      PlayIsFramed(room, acts[..i]);
      var item, taken := Perform(buffer, acts[i], s);
      GetsGrow(s, acts[i]);
      items := items + if item.Some? then [item.value] else [];
      s := Do(s, acts[i]);
      i := i + 1;
    }
    assert acts[..i] == acts;
  }

  lemma ScriptNext(room: nat, acts: seq<Act>, i: nat)
    requires Script(acts) && i < |acts|
    ensures Script(acts[..i]) && Script(acts[..i + 1]) && (acts[i].Put? ==> Wellformed(acts[i].item))
    ensures Play(room, acts[..i + 1]) == Do(Play(room, acts[..i]), acts[i])
    ensures Length(room, acts[..i]) + Added(acts[i]) == Length(room, acts[..i + 1]) <= Length(room, acts)
  {
    hide Do, Added;
    assert acts[..i + 1][..i] == acts[..i];
    LengthGrows(room, acts, i + 1);
  }

  lemma GetsGrow(s: Stream, act: Act)
    requires act.Put? ==> Wellformed(act.item)
    ensures var gets := Do(s, act).gets; gets == s.gets || gets == s.gets + [gets[|s.gets|]]
  {
  }
}
