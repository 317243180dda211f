/** The sharded record store: the index file naming the shards, the shard files, and the
    record stream that walks them (iterateAllRecords, server/src/index.ts). */
module RecordStore {
  import opened Wrappers
  import opened JsValue

  /** The export index: class name, declared record count and ordered shard file names.
      The declared total is never checked against the shards. */
  datatype Manifest = Manifest(className: string, total: int, shards: seq<string>)

  /** The export directory as the server sees it: the index file (None when it is
      missing) and the parsed contents of every shard file that can be read. */
  datatype Store = Store(index: Option<Manifest>, files: map<string, seq<Value>>)

  /** Reading the store fails on a missing index file or on a shard that cannot be read. */
  datatype StoreError = MissingIndex | UnreadableShard(shard: string)

  /** The records of the leading shards up to, not including, the first one that cannot be
      read: shard order, then each shard's own order. */
  function Readable(shards: seq<string>, files: map<string, seq<Value>>): seq<Value>
    decreases |shards|
  {
    if shards == [] || shards[0] !in files then []
    else files[shards[0]] + Readable(shards[1..], files)
  }

  /** The first shard that cannot be read, if any. */
  function FirstUnreadable(shards: seq<string>, files: map<string, seq<Value>>): Option<string>
    decreases |shards|
  {
    if shards == [] then None
    else if shards[0] !in files then Some(shards[0])
    else FirstUnreadable(shards[1..], files)
  }

  function ShardNames(store: Store): seq<string> {
    if store.index.Some? then store.index.value.shards else []
  }

  /** Every record the stream yields before it ends or fails. */
  function Records(store: Store): seq<Value> {
    Readable(ShardNames(store), store.files)
  }

  /** How the stream ends once its records are used up: None for a normal end. */
  function StreamError(store: Store): Option<StoreError> {
    if store.index.None? then Some(MissingIndex)
    else match FirstUnreadable(store.index.value.shards, store.files)
      case Some(name) => Some(UnreadableShard(name))
      case None => None
  }

  /** With every shard readable, the stream is the shards' concatenation in index order. */
  lemma {:induction false} ReadableConcat(a: seq<string>, b: seq<string>, files: map<string, seq<Value>>)
    requires forall i :: 0 <= i < |a| ==> a[i] in files
    ensures Readable(a + b, files) == Readable(a, files) + Readable(b, files)
    ensures FirstUnreadable(a + b, files) == FirstUnreadable(b, files)
    decreases |a|
  {
    if a != [] {
      assert (a + b)[0] == a[0] && (a + b)[1..] == a[1..] + b;
      ReadableConcat(a[1..], b, files);
    } else {
      assert a + b == b;
    }
  }

  /** /api/stats: the index as stored, read without loading any shard; it fails exactly
      when the record stream fails before its first shard. */
  function Stats(store: Store): (r: Option<Manifest>)
    ensures r.None? <==> StreamError(store) == Some(MissingIndex)
    ensures r.Some? ==> r.value.shards == ShardNames(store)
  {
    store.index
  }

  /** One step of the record stream. */
  datatype Step = Yield(rec: Value) | Done | Halt(error: StoreError)

  /** The generator returned by iterateAllRecords: it loads the index on its first step,
      then holds one shard's records at a time and yields them in order. */
  class RecordStream {
    const store: Store
    var started: bool         // the index has been read
    var shards: seq<string>  // the shard names from the index
    var next: nat            // index of the next shard to load
    var buffer: seq<Value>   // the records of the one shard in memory
    var pos: nat             // the next record of `buffer` to yield
    var closed: bool         // the generator has returned or thrown
    ghost var yielded: seq<Value>

    /** The records still to come: the rest of the buffer, then the unread shards. */
    ghost function Remaining(): seq<Value>
      reads this
      requires next <= |shards| && pos <= |buffer|
    {
      buffer[pos..] + Readable(shards[next..], store.files)
    }

    ghost predicate Valid()
      reads this
    {
      && next <= |shards| && pos <= |buffer|
      && (!started ==> yielded == [] && shards == [] && next == 0 && buffer == [] && !closed)
      && (started ==> shards == ShardNames(store))
      // bounded memory: the buffer is empty or exactly the last shard loaded
      && (next == 0 ==> buffer == [])
      && (next > 0 ==> shards[next - 1] in store.files && buffer == store.files[shards[next - 1]])
      && (started && !closed ==>
            && store.index.Some?
            && Records(store) == yielded + Remaining()
            && FirstUnreadable(shards, store.files) == FirstUnreadable(shards[next..], store.files))
      && (closed ==> yielded == Records(store))
    }

    constructor (store: Store)
      ensures Valid() && this.store == store && !started && !closed && yielded == []
    {
      this.store := store;
      started, shards, next, buffer, pos, closed := false, [], 0, [], 0, false;
      yielded := [];
    }

    /** The first step reads the index; a missing index ends the stream with an error. */
    method Open()
      requires Valid() && !started
      modifies this
      ensures Valid() && started && yielded == old(yielded)
      ensures closed <==> store.index.None?
    {
      started := true;
      if store.index.None? {
        closed := true;
      } else {
        shards := store.index.value.shards;
        assert shards[0..] == shards;
      }
    }

    /** Loads shards until a record is buffered or the shards run out; a shard that cannot
        be read ends the stream with an error. */
    method Refill() returns (failed: Option<string>)
      requires Valid() && started && !closed
      modifies this
      ensures Valid() && started && yielded == old(yielded)
      ensures failed.None? ==> !closed && (pos < |buffer| || next == |shards|)
      ensures failed.Some? ==> closed && StreamError(store) == Some(UnreadableShard(failed.value))
    {
      while pos == |buffer| && next < |shards|
        invariant Valid() && started && !closed && yielded == old(yielded)
        decreases |shards| - next
      {
        var name := shards[next];
        assert shards[next..][0] == name && shards[next..][1..] == shards[next + 1..];
        if name !in store.files {
          assert Remaining() == [];
          closed := true;
          return Some(name);
        }
        buffer, pos, next := store.files[name], 0, next + 1;
      }
      return None;
    }

    /** Yields the next buffered record. */
    method Emit() returns (rec: Value)
      requires Valid() && started && !closed && pos < |buffer|
      modifies this
      ensures Valid() && started && !closed
      ensures |old(yielded)| < |Records(store)| && rec == Records(store)[|old(yielded)|]
      ensures yielded == old(yielded) + [rec] && yielded == Records(store)[..|yielded|]
    {
      rec := buffer[pos];
      assert Remaining() == [rec] + (buffer[pos + 1..] + Readable(shards[next..], store.files));
      yielded := yielded + [rec];
      pos := pos + 1;
      assert Records(store) == yielded + Remaining();
    }

    /** Ends the stream once the last shard is used up. */
    method Finish()
      requires Valid() && started && !closed && pos == |buffer| && next == |shards|
      modifies this
      ensures Valid() && closed && yielded == old(yielded) == Records(store)
      ensures StreamError(store).None?
    {
      assert shards[next..] == [];
      assert Remaining() == [];
      closed := true;
    }

    method Next() returns (step: Step)
      requires Valid()
      modifies this
      ensures Valid()
      ensures |yielded| <= |Records(store)| && yielded == Records(store)[..|yielded|]
      ensures step.Yield? <==> |old(yielded)| < |Records(store)|
      ensures step.Yield? ==>
                (step.rec == Records(store)[|old(yielded)|] && yielded == old(yielded) + [step.rec] && !closed)
      ensures !step.Yield? ==> closed && yielded == old(yielded) == Records(store)
      ensures step.Halt? ==> !old(closed) && StreamError(store) == Some(step.error)
      ensures step.Done? ==> old(closed) || StreamError(store).None?
    {
      if closed {
        return Done;
      }
      if !started {
        Open();
        if closed {
          return Halt(MissingIndex);
        }
      }
      var failed := Refill();
      if failed.Some? {
        return Halt(UnreadableShard(failed.value));
      }
      if pos < |buffer| {
        var rec := Emit();
        step := Yield(rec);
      } else {
        Finish();
        step := Done;
      }
    }
  }
}
