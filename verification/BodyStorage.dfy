/** The replayable request body: one payload kept in memory or in a cache file, read through
    a shared cursor and through independent readers. */
module BodyStorage {

  import opened Basics

  datatype Error = Nil | EOF | StorageClosed | NegativePosition

  datatype Whence = FromStart | FromCurrent | FromEnd

  datatype Op =
    | Read(n: nat)
    | Seek(offset: int, whence: Whence)
    | Bytes
    | NewReader
    | ReadFrom(reader: nat, n: nat)     // a read on an independent reader opened earlier
    | Size
    | Close

  datatype Observation =
    | Chunk(bytes: seq<Byte>, err: Error)
    | Position(pos: int, err: Error)
    | Opened(err: Error)
    | Length(n: nat)
    | Closed

  /** The payload, the shared cursor, and the cursors of the independent readers. */
  datatype Store = Store(data: seq<Byte>, pos: nat, closed: bool, readers: seq<nat>)

  datatype Result = Result(store: Store, seen: Observation)

  function Take(data: seq<Byte>, pos: nat, n: nat): (bytes: seq<Byte>)
    requires pos <= |data|
  {
    if |data| - pos < n then data[pos..] else data[pos..pos + n]
  }

  /** An in-memory reader: at the end it reports EOF whatever the size asked for. */
  function MemoryRead(data: seq<Byte>, pos: nat, n: nat): (seq<Byte>, Error) {
    if pos >= |data| then ([], EOF) else (Take(data, pos, n), Nil)
  }

  /** A file: asking for nothing succeeds anywhere, also at the end. */
  function FileRead(data: seq<Byte>, pos: nat, n: nat): (seq<Byte>, Error) {
    if n == 0 then ([], Nil) else if pos >= |data| then ([], EOF) else (Take(data, pos, n), Nil)
  }

  function ReadBytes(disk: bool, data: seq<Byte>, pos: nat, n: nat): (seq<Byte>, Error) {
    if disk then FileRead(data, pos, n) else MemoryRead(data, pos, n)
  }

  function Target(s: Store, offset: int, whence: Whence): int {
    match whence
    case FromStart => offset
    case FromCurrent => s.pos + offset
    case FromEnd => |s.data| + offset
  }

  function Step(disk: bool, s: Store, op: Op): Result {
    match op
    case Read(n) =>
      if s.closed then Result(s, Chunk([], StorageClosed))
      else
        var (bytes, err) := ReadBytes(disk, s.data, s.pos, n);
        Result(s.(pos := s.pos + |bytes|), Chunk(bytes, err))
    case Seek(offset, whence) =>
      if s.closed then Result(s, Position(0, StorageClosed))
      else if Target(s, offset, whence) < 0 then Result(s, Position(0, NegativePosition))
      else Result(s.(pos := Target(s, offset, whence)), Position(Target(s, offset, whence), Nil))
    case Bytes =>
      if s.closed then Result(s, Chunk([], StorageClosed)) else Result(s, Chunk(s.data, Nil))
    case NewReader =>
      if s.closed then Result(s, Opened(StorageClosed)) else Result(s.(readers := s.readers + [0]), Opened(Nil))
    case ReadFrom(r, n) =>
      if r >= |s.readers| then Result(s, Opened(EOF))
      else
        var (bytes, err) := ReadBytes(disk, s.data, s.readers[r], n);
        Result(s.(readers := s.readers[r := s.readers[r] + |bytes|]), Chunk(bytes, err))
    case Size => Result(s, Length(|s.data|))
    case Close => Result(s.(closed := true), Closed)
  }

  // ---- The two implementations ----

  class MemoryStorage {
    const data: seq<Byte>
    var pos: nat
    var closed: bool

    constructor (data: seq<Byte>)
      ensures View([]) == Store(data, 0, false, [])
    {
      this.data, pos, closed := data, 0, false;
    }

    function View(readers: seq<nat>): Store
      reads this
    {
      Store(data, pos, closed, readers)
    }

    method ReadInto(n: nat) returns (bytes: seq<Byte>, err: Error)
      modifies this
      ensures Result(View([]), Chunk(bytes, err)) == Step(false, old(View([])), Read(n))
    {
      if closed {
        return [], StorageClosed;
      }
      if pos >= |data| {
        return [], EOF;
      }
      bytes, err := Take(data, pos, n), Nil;
      pos := pos + |bytes|;
    }

    method SeekTo(offset: int, whence: Whence) returns (at: int, err: Error)
      modifies this
      ensures Result(View([]), Position(at, err)) == Step(false, old(View([])), Seek(offset, whence))
    {
      if closed {
        return 0, StorageClosed;
      }
      var abs := match whence
        case FromStart => offset
        case FromCurrent => pos + offset
        case FromEnd => |data| + offset;
      if abs < 0 {
        return 0, NegativePosition;
      }
      pos := abs;
      return abs, Nil;
    }

    /** Closing again changes nothing. */
    method CloseStorage()
      modifies this
      ensures View([]) == Step(false, old(View([])), Close).store
    {
      if !closed {
        closed := true;
      }
    }

    method AllBytes() returns (bytes: seq<Byte>, err: Error)
      ensures Result(View([]), Chunk(bytes, err)) == Step(false, View([]), Bytes)
    {
      if closed {
        return [], StorageClosed;
      }
      return data, Nil;
    }
  }

  class DiskStorage {
    const file: seq<Byte>
    const size: nat
    var filePos: nat
    var closed: bool

    ghost predicate Valid()
      reads this
    {
      size == |file|
    }

    constructor (data: seq<Byte>)
      ensures Valid() && View([]) == Store(data, 0, false, [])
    {
      file, size, filePos, closed := data, |data|, 0, false;
    }

    function View(readers: seq<nat>): Store
      reads this
    {
      Store(file, filePos, closed, readers)
    }

    method ReadFile(n: nat) returns (bytes: seq<Byte>, err: Error)
      modifies this
      ensures (bytes, err) == FileRead(file, old(filePos), n)
      ensures filePos == old(filePos) + |bytes| && closed == old(closed)
    {
      if n == 0 {
        return [], Nil;
      }
      if filePos >= |file| {
        return [], EOF;
      }
      bytes, err := Take(file, filePos, n), Nil;
      filePos := filePos + |bytes|;
    }

    method ReadInto(n: nat) returns (bytes: seq<Byte>, err: Error)
      modifies this
      ensures Result(View([]), Chunk(bytes, err)) == Step(true, old(View([])), Read(n))
    {
      if closed {
        return [], StorageClosed;
      }
      bytes, err := ReadFile(n);
    }

    method SeekTo(offset: int, whence: Whence) returns (at: int, err: Error)
      modifies this
      ensures Result(View([]), Position(at, err)) == Step(true, old(View([])), Seek(offset, whence))
    {
      if closed {
        return 0, StorageClosed;
      }
      var abs := match whence
        case FromStart => offset
        case FromCurrent => filePos + offset
        case FromEnd => |file| + offset;
      if abs < 0 {
        return 0, NegativePosition;
      }
      filePos := abs;
      return abs, Nil;
    }

    /** Closing again changes nothing. */
    method CloseStorage()
      modifies this
      ensures View([]) == Step(true, old(View([])), Close).store
    {
      if !closed {
        closed := true;
      }
    }

    /** Saves the position, reads the whole file from its start, restores the position. */
    method AllBytes() returns (bytes: seq<Byte>, err: Error)
      requires Valid()
      modifies this
      ensures Valid()
      ensures Result(View([]), Chunk(bytes, err)) == Step(true, old(View([])), Bytes)
    {
      if closed {
        return [], StorageClosed;
      }
      var current, _ := SeekTo(0, FromCurrent);
      var _, _ := SeekTo(0, FromStart);
      bytes := [];
      while |bytes| < size
        invariant |bytes| <= size && bytes == file[..|bytes|] && filePos == |bytes| && !closed
        decreases size - |bytes|
      {
        var chunk, _ := ReadFile(size - |bytes|);
        bytes := bytes + chunk;
      }
      assert file[..|file|] == file;
      err := Nil;
      var _, _ := SeekTo(current, FromStart);
    }
  }

  // ---- Both implementations look the same ----

  function Run(disk: bool, s: Store, ops: seq<Op>): Store {
    if ops == [] then s else Step(disk, Run(disk, s, ops[..|ops| - 1]), ops[|ops| - 1]).store
  }

  function Observe(disk: bool, s: Store, ops: seq<Op>): seq<Observation> {
    if ops == [] then []
    else
      var init := ops[..|ops| - 1];
      Observe(disk, s, init) + [Step(disk, Run(disk, s, init), ops[|ops| - 1]).seen]
  }

  /** A read of zero bytes at or beyond the end of the payload. */
  predicate EmptyReadAtEnd(s: Store, op: Op) {
    match op
    case Read(n) => n == 0 && !s.closed && s.pos >= |s.data|
    case ReadFrom(r, n) => n == 0 && r < |s.readers| && s.readers[r] >= |s.data|
    case _ => false
  }

  ghost predicate NoEmptyReadAtEnd(s: Store, ops: seq<Op>) {
    forall k :: 0 <= k < |ops| ==> !EmptyReadAtEnd(Run(false, s, ops[..k]), ops[k])
  }

  lemma StepSame(s: Store, op: Op)
    ensures Step(true, s, op).store == Step(false, s, op).store
    ensures Step(true, s, op).seen == Step(false, s, op).seen <==> !EmptyReadAtEnd(s, op)
  {
  }

  lemma {:induction false} RunSame(s: Store, ops: seq<Op>)
    ensures Run(true, s, ops) == Run(false, s, ops)
  {
    if ops != [] {
      RunSame(s, ops[..|ops| - 1]);
      StepSame(Run(false, s, ops[..|ops| - 1]), ops[|ops| - 1]);
    }
  }

  lemma NoEmptyReadSnoc(s: Store, init: seq<Op>, last: Op)
    ensures NoEmptyReadAtEnd(s, init + [last]) <==>
            NoEmptyReadAtEnd(s, init) && !EmptyReadAtEnd(Run(false, s, init), last)
  {
    var ops, n := init + [last], |init|;
    assert ops[..n] == init && ops[n] == last;
    assert forall k :: 0 <= k < n ==> init[..k] == ops[..k] && init[k] == ops[k];
  }

  lemma ObserveSnoc(disk: bool, s: Store, init: seq<Op>, last: Op)
    ensures Observe(disk, s, init + [last]) == Observe(disk, s, init) + [Step(disk, Run(disk, s, init), last).seen]
  {
    assert (init + [last])[..|init|] == init;
  }

  lemma AgreeSnoc<T>(a: seq<T>, x: T, b: seq<T>, y: T)
    requires |a| == |b|
    ensures a + [x] == b + [y] <==> a == b && x == y
  {
    if a + [x] == b + [y] {
      assert (a + [x])[|a|] == x && (b + [y])[|b|] == y;
      assert (a + [x])[..|a|] == a && (b + [y])[..|b|] == b;
    }
  }

  /** For any sequence of reads, seeks, whole-body reads, independent readers and closes,
      both implementations show the same, except that reading zero bytes at the end is EOF
      in memory and no error on disk. */
  lemma {:induction false} ObservationsAgreeIff(s: Store, ops: seq<Op>)
    ensures Observe(true, s, ops) == Observe(false, s, ops) <==> NoEmptyReadAtEnd(s, ops)
  {
    if ops != [] {
      var init, last := ops[..|ops| - 1], ops[|ops| - 1];
      assert init + [last] == ops;
      ObservationsAgreeIff(s, init);
      RunSame(s, init);
      StepSame(Run(false, s, init), last);
      NoEmptyReadSnoc(s, init, last);
      SameLength(s, init);
      ObserveSnoc(true, s, init, last);
      ObserveSnoc(false, s, init, last);
      AgreeSnoc(Observe(true, s, init), Step(true, Run(true, s, init), last).seen,
                Observe(false, s, init), Step(false, Run(false, s, init), last).seen);
    }
  }

  /** The exception at work: reading nothing from an empty body. */
  lemma EmptyReadExample()
    ensures
      var s := Store([], 0, false, []);
      && Observe(false, s, [Read(0)]) == [Chunk([], EOF)]
      && Observe(true, s, [Read(0)]) == [Chunk([], Nil)]
  {
    assert [Read(0)][..0] == [];
  }

  lemma {:induction false} SameLength(s: Store, ops: seq<Op>)
    ensures |Observe(true, s, ops)| == |ops| == |Observe(false, s, ops)|
  {
    if ops != [] {
      SameLength(s, ops[..|ops| - 1]);
    }
  }

  // ---- Replaying ----

  lemma {:induction false} PayloadKept(disk: bool, s: Store, ops: seq<Op>)
    ensures Run(disk, s, ops).data == s.data
    ensures !s.closed && (forall k :: 0 <= k < |ops| ==> ops[k] != Close) ==> !Run(disk, s, ops).closed
  {
    if ops != [] {
      PayloadKept(disk, s, ops[..|ops| - 1]);
    }
  }

  /** What reading in chunks of the given sizes yields, one after the other. */
  function ReadChunks(disk: bool, s: Store, sizes: seq<nat>): seq<Byte>
    decreases |sizes|
  {
    if sizes == [] || s.closed then []
    else
      var r := Step(disk, s, Read(sizes[0]));
      r.seen.bytes + ReadChunks(disk, r.store, sizes[1..])
  }

  function Sum(sizes: seq<nat>): nat {
    if sizes == [] then 0 else sizes[0] + Sum(sizes[1..])
  }

  lemma TakeTwice(data: seq<Byte>, pos: nat, a: nat, b: nat)
    requires pos <= |data|
    ensures
      var first := Take(data, pos, a);
      pos + |first| <= |data| && first + Take(data, pos + |first|, b) == Take(data, pos, a + b)
  {
  }

  lemma ReadTakes(disk: bool, s: Store, n: nat)
    requires !s.closed && s.pos <= |s.data|
    ensures
      var r := Step(disk, s, Read(n));
      && r.seen.Chunk? && r.seen.bytes == Take(s.data, s.pos, n)
      && r.store == s.(pos := s.pos + |r.seen.bytes|)
  {
  }

  lemma {:induction false} ChunksArePrefix(disk: bool, s: Store, sizes: seq<nat>)
    requires !s.closed && s.pos <= |s.data|
    ensures ReadChunks(disk, s, sizes) == Take(s.data, s.pos, Sum(sizes))
    decreases |sizes|
  {
    if sizes != [] {
      var rest := sizes[1..];
      var chunk := Take(s.data, s.pos, sizes[0]);
      var s' := s.(pos := s.pos + |chunk|);
      assert ReadChunks(disk, s, sizes) == chunk + ReadChunks(disk, s', rest) by {
        ReadTakes(disk, s, sizes[0]);
      }
      TakeTwice(s.data, s.pos, sizes[0], Sum(rest));
      ChunksArePrefix(disk, s', rest);
    }
  }

  /** Each attempt rewinds the stored body and then reads all of it, however much earlier
      attempts consumed or sought, as long as nothing closed the storage. */
  lemma AttemptReadsWholeBody(disk: bool, data: seq<Byte>, before: seq<Op>, sizes: seq<nat>)
    requires forall k :: 0 <= k < |before| ==> before[k] != Close
    requires Sum(sizes) >= |data|
    ensures
      var rewound := Step(disk, Run(disk, Store(data, 0, false, []), before), Seek(0, FromStart));
      rewound.seen == Position(0, Nil) && ReadChunks(disk, rewound.store, sizes) == data
  {
    var s := Store(data, 0, false, []);
    PayloadKept(disk, s, before);
    ChunksArePrefix(disk, Step(disk, Run(disk, s, before), Seek(0, FromStart)).store, sizes);
  }

  /** An independent reader has its own cursor: what others do never moves it, and closing
      the storage does not end it. */
  lemma {:induction false} ReadersIndependent(disk: bool, s: Store, ops: seq<Op>, r: nat)
    requires r < |s.readers| && forall k :: 0 <= k < |ops| ==> !(ops[k].ReadFrom? && ops[k].reader == r)
    ensures r < |Run(disk, s, ops).readers| && Run(disk, s, ops).readers[r] == s.readers[r]
  {
    if ops != [] {
      ReadersIndependent(disk, s, ops[..|ops| - 1], r);
    }
  }
}
