/** A copy-on-write transactional store of byte slices in named buckets. */
module MemDb {
  import opened Text
  import opened Domain
  import Ordering

  newtype byte = x: int | 0 <= x < 256

  /** Byte slices are references; a nil slice is null. */
  type Slice = array?<byte>
  type Records = map<string, Slice>
  type Buckets = map<string, Records>

  // ---------------------------------------------------------------------------------------
  // What the references stand for

  type Value = Option<seq<byte>>
  type Contents = map<string, map<string, Value>>

  function ValueOf(s: Slice): Value
    reads s
  {
    if s == null then None else Some(s[..])
  }

  function RecordSlices(records: Records): set<object> {
    set k | k in records && records[k] != null :: records[k]
  }

  /** Every slice the buckets hold. */
  function Slices(buckets: Buckets): set<object> {
    set b, k | b in buckets && k in buckets[b] && buckets[b][k] != null :: buckets[b][k]
  }

  function RecordContents(records: Records): map<string, Value>
    reads RecordSlices(records)
  {
    map k | k in records :: ValueOf(records[k])
  }

  function ContentsOf(buckets: Buckets): Contents
    reads Slices(buckets)
  {
    map b | b in buckets :: map k | k in buckets[b] :: ValueOf(buckets[b][k])
  }

  // ---------------------------------------------------------------------------------------
  // The meaning of a transaction

  datatype Op = Put(bucket: string, key: string, value: Value) | Delete(bucket: string, key: string)

  function Apply(c: Contents, op: Op): Contents {
    match op
    case Put(b, k, v) => c[b := (if b in c then c[b] else map[])[k := v]]
    case Delete(b, k) =>
      if b !in c then c
      else if c[b] - {k} == map[] then c - {b}
      else c[b := c[b] - {k}]
  }

  function Fold(c: Contents, ops: seq<Op>): Contents {
    if ops == [] then c else Apply(Fold(c, ops[..|ops| - 1]), ops[|ops| - 1])
  }

  ghost predicate NoEmptyBucket(c: Contents) {
    forall b | b in c :: c[b] != map[]
  }

  lemma {:induction false} FoldKeepsNoEmptyBucket(c: Contents, ops: seq<Op>)
    requires NoEmptyBucket(c)
    ensures NoEmptyBucket(Fold(c, ops))
  {
    if ops != [] {
      FoldKeepsNoEmptyBucket(c, ops[..|ops| - 1]);
      ApplyKeepsNoEmptyBucket(Fold(c, ops[..|ops| - 1]), ops[|ops| - 1]);
    }
  }

  lemma ApplyKeepsNoEmptyBucket(c: Contents, op: Op)
    requires NoEmptyBucket(c)
    ensures NoEmptyBucket(Apply(c, op))
  {
    var d := Apply(c, op);
    if op.Put? {
      assert op.key in d[op.bucket];
    }
    forall b | b in d && b != op.bucket ensures d[b] != map[] { assert d[b] == c[b]; }
  }

  function Lookup(c: Contents, b: string, k: string): Option<Value> {
    if b in c && k in c[b] then Some(c[b][k]) else None
  }

  /** The last operation on a key decides what is read; without one the key is as it was. */
  function LastWrite(ops: seq<Op>, b: string, k: string, before: Option<Value>): Option<Value> {
    if ops == [] then before
    else
      var op := ops[|ops| - 1];
      if op.bucket == b && op.key == k then (if op.Put? then Some(op.value) else None)
      else LastWrite(ops[..|ops| - 1], b, k, before)
  }

  lemma {:induction false} LastWriteWins(c: Contents, ops: seq<Op>, b: string, k: string)
    ensures Lookup(Fold(c, ops), b, k) == LastWrite(ops, b, k, Lookup(c, b, k))
  {
    if ops != [] {
      LastWriteWins(c, ops[..|ops| - 1], b, k);
      LookupAfter(Fold(c, ops[..|ops| - 1]), ops[|ops| - 1], b, k);
    }
  }

  lemma LookupAfter(c: Contents, op: Op, b: string, k: string)
    ensures Lookup(Apply(c, op), b, k) ==
              if op.bucket == b && op.key == k then (if op.Put? then Some(op.value) else None) else Lookup(c, b, k)
  {
    if op.Delete? && op.bucket == b && b in c && k in c[b] && k != op.key {
      assert k in c[b] - {op.key};
    }
  }

  // ---------------------------------------------------------------------------------------
  // Copying

  method CloneBytes(value: Slice) returns (cloned: Slice)
    ensures value == null <==> cloned == null
    ensures cloned != null ==> fresh(cloned)
    ensures ValueOf(cloned) == ValueOf(value)
  {
    if value == null { return null; }
    var copy := new byte[value.Length];
    for i := 0 to value.Length
      invariant copy[..i] == value[..i]
    {
      copy[i] := value[i];
    }
    assert copy[..] == copy[..value.Length] == value[..];
    cloned := copy;
  }

  method CloneRecords(records: Records) returns (copy: Records)
    ensures copy.Keys == records.Keys
    ensures fresh(RecordSlices(copy))
    ensures RecordContents(copy) == RecordContents(records)
  {
    copy := map[];
    var rest := records.Keys;
    while rest != {}
      invariant rest <= records.Keys && copy.Keys == records.Keys - rest
      invariant fresh(RecordSlices(copy))
      invariant forall k | k in copy :: ValueOf(copy[k]) == ValueOf(records[k])
      decreases rest
    {
      var k :| k in rest;
      var value := CloneBytes(records[k]);
      assert RecordSlices(copy[k := value]) <= RecordSlices(copy) + (if value == null then {} else {value});
      copy, rest := copy[k := value], rest - {k};
    }
  }

  method CloneBuckets(source: Buckets) returns (cloned: Buckets)
    ensures cloned.Keys == source.Keys
    ensures fresh(Slices(cloned))
    ensures ContentsOf(cloned) == ContentsOf(source)
  {
    hide ContentsOf, ValueOf;
    cloned := map[];
    var rest := source.Keys;
    while rest != {}
      invariant rest <= source.Keys && cloned.Keys == source.Keys - rest
      invariant fresh(Slices(cloned))
      invariant forall b | b in cloned :: RecordContents(cloned[b]) == RecordContents(source[b])
      decreases rest
    {
      var b :| b in rest;
      var copy := CloneRecords(source[b]);
      assert Slices(cloned[b := copy]) <= Slices(cloned) + RecordSlices(copy);
      cloned, rest := cloned[b := copy], rest - {b};
    }
    SameRecords(cloned, source);
  }

  lemma SameRecords(x: Buckets, y: Buckets)
    requires x.Keys == y.Keys && forall b | b in x :: RecordContents(x[b]) == RecordContents(y[b])
    ensures ContentsOf(x) == ContentsOf(y)
  {
    hide ValueOf;
    var cx, cy := ContentsOf(x), ContentsOf(y);
    forall b | b in x ensures cx[b] == cy[b] {
      assert cx[b] == RecordContents(x[b]) && cy[b] == RecordContents(y[b]);
    }
    assert cx.Keys == cy.Keys;
  }

  /** Contents only depend on the slices' bytes. */
  twostate lemma SameContents(buckets: Buckets)
    requires forall b, k | b in buckets && k in buckets[b] && buckets[b][k] != null :: unchanged(buckets[b][k])
    ensures ContentsOf(buckets) == old(ContentsOf(buckets))
  {
    var x, y := ContentsOf(buckets), old(ContentsOf(buckets));
    forall b | b in buckets ensures x[b] == y[b] {
      forall k | k in buckets[b] ensures x[b][k] == y[b][k] { SameValue(buckets[b][k]); }
      assert x[b].Keys == y[b].Keys;
    }
    assert x.Keys == y.Keys;
  }

  twostate lemma SameValue(s: Slice)
    requires s != null ==> unchanged(s)
    ensures ValueOf(s) == old(ValueOf(s))
  {
  }

  // ---------------------------------------------------------------------------------------
  // Reading

  datatype Entry = Entry(key: string, value: Slice)

  /** A copy of the stored bytes. */
  method Get(buckets: Buckets, bucket: string, key: string) returns (value: Slice, found: bool)
    ensures found <==> Lookup(ContentsOf(buckets), bucket, key).Some?
    ensures found ==> ValueOf(value) == Lookup(ContentsOf(buckets), bucket, key).value
    ensures !found ==> value == null
    ensures value != null ==> fresh(value)
  {
    if bucket !in buckets { return null, false; }
    var records := buckets[bucket];
    if key !in records { return null, false; }
    value := CloneBytes(records[key]);
    found := true;
  }

  predicate HasPrefix(s: string, prefix: string) { prefix <= s }

  /** Exactly the records of a bucket whose key has the prefix, in strict key order, each a copy. */
  method Scan(buckets: Buckets, bucket: string, prefix: string) returns (entries: seq<Entry>)
    ensures forall i, j | 0 <= i < j < |entries| :: Less(entries[i].key, entries[j].key)
    ensures forall i | 0 <= i < |entries| ::
              HasPrefix(entries[i].key, prefix) && Lookup(ContentsOf(buckets), bucket, entries[i].key) == Some(ValueOf(entries[i].value))
              && (entries[i].value != null ==> fresh(entries[i].value))
    ensures forall k | Lookup(ContentsOf(buckets), bucket, k).Some? && HasPrefix(k, prefix) :: exists i :: 0 <= i < |entries| && entries[i].key == k
  {
    if bucket !in buckets { return []; }
    var records := buckets[bucket];
    var found: Records := map[];
    var rest := records.Keys;
    while rest != {}
      invariant rest <= records.Keys
      invariant forall k :: k in found <==> k in records && k !in rest && HasPrefix(k, prefix)
      invariant fresh(RecordSlices(found))
      invariant forall k | k in found :: ValueOf(found[k]) == ValueOf(records[k])
      decreases rest
    {
      var key :| key in rest;
      rest := rest - {key};
      if prefix != "" && !HasPrefix(key, prefix) { continue; }
      var value := CloneBytes(records[key]);
      assert RecordSlices(found[key := value]) <= RecordSlices(found) + (if value == null then {} else {value});
      found := found[key := value];
    }
    entries := SortEntries(found);
    assert forall i | 0 <= i < |entries| && entries[i].value != null :: entries[i].value in RecordSlices(found);
  }

  /** The entries of a map in key order. */
  method SortEntries(found: Records) returns (entries: seq<Entry>)
    ensures forall i, j | 0 <= i < j < |entries| :: Less(entries[i].key, entries[j].key)
    ensures forall i | 0 <= i < |entries| :: entries[i].key in found && entries[i].value == found[entries[i].key]
    ensures forall k | k in found :: exists i :: 0 <= i < |entries| && entries[i].key == k
  {
    var keys: seq<string> := [];
    var rest := found.Keys;
    while rest != {}
      invariant rest <= found.Keys && forall k :: k in found <==> k in keys || k in rest
      decreases rest
    {
      var k :| k in rest;
      keys, rest := keys + [k], rest - {k};
    }
    Ordering.SortedDistinctSpec(keys);
    var sorted := Ordering.SortedDistinct(keys);
    entries := [];
    for i := 0 to |sorted|
      invariant |entries| == i
      invariant forall j | 0 <= j < i :: entries[j] == Entry(sorted[j], found[sorted[j]])
    {
      assert sorted[i] in sorted;
      entries := entries + [Entry(sorted[i], found[sorted[i]])];
    }
    forall k | k in found ensures exists i :: 0 <= i < |entries| && entries[i].key == k {
      var i :| 0 <= i < |sorted| && sorted[i] == k;
      assert entries[i].key == k;
    }
  }

  // ---------------------------------------------------------------------------------------
  // Callbacks

  /** What a callback does next, given all it has seen: write, read, or return. */
  datatype Action =
    | PutAction(bucket: string, key: string, value: Value)
    | DeleteAction(bucket: string, key: string)
    | GetAction(bucket: string, key: string)
    | ScanAction(bucket: string, prefix: string)
    | Finish(fails: bool)

  datatype Seen = Done | Read(value: Option<Value>) | Listed(entries: seq<(string, Value)>)

  type Callback = seq<Seen> -> Action

  /** The keys of a set in increasing order. */
  ghost function InOrder(keys: set<string>): (s: seq<string>)
    ensures Ordering.Increasing(s) && forall k :: k in s <==> k in keys
  {
    ListingExists(keys);
    var s :| Ordering.Increasing(s) && forall k :: k in s <==> k in keys;
    s
  }

  lemma {:induction false} ListingExists(keys: set<string>)
    ensures exists s: seq<string> :: Ordering.Increasing(s) && forall k :: k in s <==> k in keys
  {
    if keys == {} {
      assert Ordering.Increasing([]);
    } else {
      var k :| k in keys;
      ListingExists(keys - {k});
      var t: seq<string> :| Ordering.Increasing(t) && forall x :: x in t <==> x in keys - {k};
      Ordering.SortedDistinctSpec(t + [k]);
      assert forall x :: x in Ordering.SortedDistinct(t + [k]) <==> x in keys;
    }
  }

  function MatchingKeys(c: Contents, bucket: string, prefix: string): set<string> {
    if bucket in c then set k | k in c[bucket] && HasPrefix(k, prefix) else {}
  }

  /** The records with a prefix, in key order. */
  ghost function ListedIn(c: Contents, bucket: string, prefix: string): seq<(string, Value)> {
    var keys := InOrder(MatchingKeys(c, bucket, prefix));
    seq(|keys|, i requires 0 <= i < |keys| => (keys[i], ValueAt(c, bucket, keys[i])))
  }

  function ValueAt(c: Contents, bucket: string, key: string): Value {
    if Lookup(c, bucket, key).Some? then Lookup(c, bucket, key).value else None
  }

  function Effect(c: Contents, a: Action): Contents {
    match a
    case PutAction(b, k, v) => Apply(c, Op.Put(b, k, v))
    case DeleteAction(b, k) => Apply(c, Op.Delete(b, k))
    case _ => c
  }

  function OpsIn(a: Action): seq<Op> {
    match a
    case PutAction(b, k, v) => [Op.Put(b, k, v)]
    case DeleteAction(b, k) => [Op.Delete(b, k)]
    case _ => []
  }

  ghost function AnswerTo(c: Contents, a: Action): Seen {
    match a
    case GetAction(b, k) => Read(Lookup(c, b, k))
    case ScanAction(b, prefix) => Listed(ListedIn(c, b, prefix))
    case _ => Done
  }

  /** Where a callback ends: the contents, the writes it performed, and whether it fails. */
  datatype Verdict = Verdict(contents: Contents, ops: seq<Op>, fails: bool)

  /** The run of a callback, nothing if it does not return within that many actions. */
  ghost function Interpret(callback: Callback, c: Contents, seen: seq<Seen>, fuel: nat): Option<Verdict>
    decreases fuel
  {
    if fuel == 0 then None
    else if callback(seen).Finish? then Some(Verdict(c, [], callback(seen).fails))
    else
      var a := callback(seen);
      match Interpret(callback, Effect(c, a), seen + [AnswerTo(c, a)], fuel - 1)
      case None => None
      case Some(v) => Some(v.(ops := OpsIn(a) + v.ops))
  }

  lemma InterpretStep(callback: Callback, c: Contents, seen: seq<Seen>, fuel: nat)
    requires Interpret(callback, c, seen, fuel).Some?
    ensures fuel > 0
    ensures var a, v := callback(seen), Interpret(callback, c, seen, fuel).value;
            if a.Finish? then v.contents == c && v.fails == a.fails
            else
              Interpret(callback, Effect(c, a), seen + [AnswerTo(c, a)], fuel - 1).Some?
              && var v' := Interpret(callback, Effect(c, a), seen + [AnswerTo(c, a)], fuel - 1).value;
                 v'.contents == v.contents && v'.fails == v.fails
  {
    hide Effect, AnswerTo;
  }

  lemma {:induction false} FoldPrepend(c: Contents, op: Op, ops: seq<Op>)
    ensures Fold(c, [op] + ops) == Fold(Apply(c, op), ops)
  {
    hide Apply;
    if ops == [] {
      assert [op] + ops == [op] && [op][..0] == [];
    } else {
      assert ([op] + ops)[..|ops|] == [op] + ops[..|ops| - 1];
      FoldPrepend(c, op, ops[..|ops| - 1]);
    }
  }

  /** A callback's run is the fold of the writes it performs, whatever it reads in between. */
  lemma {:induction false} InterpretFolds(callback: Callback, c: Contents, seen: seq<Seen>, fuel: nat)
    requires Interpret(callback, c, seen, fuel).Some?
    ensures var v := Interpret(callback, c, seen, fuel).value; v.contents == Fold(c, v.ops)
    decreases fuel
  {
    hide AnswerTo, Apply;
    if !callback(seen).Finish? {
      var a := callback(seen);
      InterpretFolds(callback, Effect(c, a), seen + [AnswerTo(c, a)], fuel - 1);
      var ops := Interpret(callback, Effect(c, a), seen + [AnswerTo(c, a)], fuel - 1).value.ops;
      if a.PutAction? { FoldPrepend(c, Op.Put(a.bucket, a.key, a.value), ops); }
      else if a.DeleteAction? { FoldPrepend(c, Op.Delete(a.bucket, a.key), ops); }
      else { assert [] + ops == ops; }
    }
  }

  function AsSet(s: Slice): set<object> { if s == null then {} else {s} }

  function EntrySlices(entries: seq<Entry>): set<object> {
    set i | 0 <= i < |entries| && entries[i].value != null :: entries[i].value
  }

  /** A slice a callback allocates. */
  method NewSlice(value: Value) returns (slice: Slice)
    ensures ValueOf(slice) == value
    ensures slice != null ==> fresh(slice)
  {
    if value.None? { return null; }
    var bytes := value.value;
    var a := new byte[|bytes|](i requires 0 <= i < |bytes| => bytes[i]);
    assert a[..] == bytes;
    slice := a;
  }

  method ReadEntries(entries: seq<Entry>) returns (listed: seq<(string, Value)>)
    ensures |listed| == |entries| && forall i | 0 <= i < |entries| :: listed[i] == (entries[i].key, ValueOf(entries[i].value))
  {
    listed := [];
    for i := 0 to |entries|
      invariant |listed| == i && forall j | 0 <= j < i :: listed[j] == (entries[j].key, ValueOf(entries[j].value))
    {
      listed := listed + [(entries[i].key, ValueOf(entries[i].value))];
    }
  }

  /** Exactly the matching records in strict key order can only be the listing. */
  lemma ScanIsListing(c: Contents, bucket: string, prefix: string, listed: seq<(string, Value)>)
    requires forall i, j | 0 <= i < j < |listed| :: Less(listed[i].0, listed[j].0)
    requires forall i | 0 <= i < |listed| :: HasPrefix(listed[i].0, prefix) && Lookup(c, bucket, listed[i].0) == Some(listed[i].1)
    requires forall k | Lookup(c, bucket, k).Some? && HasPrefix(k, prefix) :: exists i :: 0 <= i < |listed| && listed[i].0 == k
    ensures listed == ListedIn(c, bucket, prefix)
  {
    hide HasPrefix;
    var keys := seq(|listed|, i requires 0 <= i < |listed| => listed[i].0);
    var expected := InOrder(MatchingKeys(c, bucket, prefix));
    forall k ensures k in keys <==> k in expected {
      if k in expected { var i :| 0 <= i < |listed| && listed[i].0 == k; assert keys[i] == k; }
      if k in keys { var i :| 0 <= i < |keys| && keys[i] == k; assert Lookup(c, bucket, k).Some?; }
    }
    Ordering.IncreasingUnique(keys, expected);
    assert forall i | 0 <= i < |listed| :: listed[i] == (keys[i], listed[i].1);
  }

  // ---------------------------------------------------------------------------------------
  // Writing

  lemma PutRecord(records: Records, key: string, value: Slice)
    ensures RecordContents(records[key := value]) == RecordContents(records)[key := ValueOf(value)]
  {}

  lemma PutBucket(buckets: Buckets, bucket: string, records: Records)
    ensures ContentsOf(buckets[bucket := records]) == ContentsOf(buckets)[bucket := RecordContents(records)]
    ensures bucket in buckets ==> ContentsOf(buckets)[bucket] == RecordContents(buckets[bucket])
    ensures Slices(buckets[bucket := records]) <= Slices(buckets) + RecordSlices(records)
  {}

  lemma DropRecord(records: Records, key: string)
    ensures RecordContents(records - {key}) == RecordContents(records) - {key}
    ensures RecordContents(records - {key}) == map[] <==> |records - {key}| == 0
  {
    assert RecordContents(records - {key}).Keys == (records - {key}).Keys;
    assert |records - {key}| == |(records - {key}).Keys|;
    if RecordContents(records - {key}) == map[] { assert (records - {key}).Keys == {}; }
  }

  lemma DropBucket(buckets: Buckets, bucket: string)
    ensures ContentsOf(buckets - {bucket}) == ContentsOf(buckets) - {bucket}
  {}

  class WriteTx {
    var buckets: Buckets

    constructor (buckets: Buckets)
      ensures this.buckets == buckets
    {
      this.buckets := buckets;
    }

    function Contents(): Contents
      reads this, Slices(buckets)
    {
      ContentsOf(buckets)
    }

    /** Stores a copy: what is stored is never what was passed in. */
    method Put(bucket: string, key: string, value: Slice)
      modifies this
      ensures Contents() == Apply(old(Contents()), Op.Put(bucket, key, ValueOf(value)))
      ensures fresh(Slices(buckets) - old(Slices(buckets)))
    {
      var records: Records := if bucket in buckets then buckets[bucket] else map[];
      var copy := CloneBytes(value);
      PutRecord(records, key, copy);
      PutBucket(buckets, bucket, records[key := copy]);
      records := records[key := copy];
      buckets := buckets[bucket := records];
    }

    method Delete(bucket: string, key: string)
      modifies this
      ensures Contents() == Apply(old(Contents()), Op.Delete(bucket, key))
      ensures Slices(buckets) <= old(Slices(buckets))
    {
      if bucket !in buckets { return; }
      var records := buckets[bucket] - {key};
      var after := if |records| == 0 then buckets - {bucket} else buckets[bucket := records];
      DeletedFrom(buckets, bucket, key);
      buckets := after;
    }

    /** Runs a callback to its end. Every slice it passes or receives is exchanged, and none of those is stored. */
    method Run(callback: Callback, ghost fuel: nat) returns (fails: bool, ghost exchanged: set<object>)
      requires Interpret(callback, Contents(), [], fuel).Some?
      modifies this
      ensures var verdict := old(Interpret(callback, Contents(), [], fuel)).value;
              Contents() == verdict.contents && fails == verdict.fails
      ensures fresh(Slices(buckets) - old(Slices(buckets))) && fresh(exchanged) && exchanged !! Slices(buckets)
    {
      hide ContentsOf, Apply, ListedIn, Interpret;
      ghost var verdict := Interpret(callback, Contents(), [], fuel).value;
      ghost var left := fuel;
      var seen: seq<Seen> := [];
      exchanged := {};
      while true
        invariant Interpret(callback, Contents(), seen, left).Some?
        invariant Interpret(callback, Contents(), seen, left).value.contents == verdict.contents
        invariant Interpret(callback, Contents(), seen, left).value.fails == verdict.fails
        invariant fresh(Slices(buckets) - old(Slices(buckets))) && fresh(exchanged) && exchanged !! Slices(buckets)
        decreases left
      {
        ghost var was := Contents();
        InterpretStep(callback, was, seen, left);
        var action := callback(seen);
        match action {
          case Finish(failed) =>
            fails := failed;
            return;
          case PutAction(b, k, v) =>
            var slice := NewSlice(v);
            Put(b, k, slice);
            exchanged := exchanged + AsSet(slice);
            seen := seen + [Done];
          case DeleteAction(b, k) =>
            Delete(b, k);
            seen := seen + [Done];
          case GetAction(b, k) =>
            var value, found := Get(buckets, b, k);
            exchanged := exchanged + AsSet(value);
            seen := seen + [Read(if found then Some(ValueOf(value)) else None)];
          case ScanAction(b, prefix) =>
            var entries := Scan(buckets, b, prefix);
            var listed := ReadEntries(entries);
            ScanIsListing(Contents(), b, prefix, listed);
            exchanged := exchanged + EntrySlices(entries);
            seen := seen + [Listed(listed)];
        }
        assert Contents() == Effect(was, action);
        left := left - 1;
      }
    }
  }

  lemma DeletedFrom(buckets: Buckets, bucket: string, key: string)
    requires bucket in buckets
    ensures var records := buckets[bucket] - {key};
            var after := if |records| == 0 then buckets - {bucket} else buckets[bucket := records];
            ContentsOf(after) == Apply(ContentsOf(buckets), Op.Delete(bucket, key)) && Slices(after) <= Slices(buckets)
  {
    var records := buckets[bucket] - {key};
    DropRecord(buckets[bucket], key);
    PutBucket(buckets, bucket, records);
    DropBucket(buckets, bucket);
    assert RecordSlices(records) <= Slices(buckets);
    hide ContentsOf, RecordContents;
  }

  datatype Outcome = Committed | ContextError | CallbackError

  class DB {
    var buckets: Buckets

    constructor ()
      ensures Contents() == map[] && NoEmptyBucket(Contents())
    {
      buckets := map[];
    }

    function Contents(): Contents
      reads this, Slices(buckets)
    {
      ContentsOf(buckets)
    }

    /** Runs a callback in a transaction. It commits exactly the fold of the writes the callback performs, which may
        depend on what it reads, or changes nothing; and no slice the callback passed or received is stored. */
    method Update(callback: Callback, ghost fuel: nat, cancelledBefore: bool, cancelledAfter: bool)
      returns (outcome: Outcome, ghost exchanged: set<object>)
      requires Interpret(callback, Contents(), [], fuel).Some?
      modifies this
      ensures var verdict := old(Interpret(callback, Contents(), [], fuel)).value;
              && outcome == (if cancelledBefore then ContextError else if verdict.fails then CallbackError
                             else if cancelledAfter then ContextError else Committed)
              && (outcome == Committed ==> Contents() == Fold(old(Contents()), verdict.ops) && fresh(Slices(buckets)))
      ensures outcome != Committed ==> buckets == old(buckets) && Contents() == old(Contents())
      ensures exchanged !! Slices(buckets)
      ensures NoEmptyBucket(old(Contents())) ==> NoEmptyBucket(Contents())
    {
      hide Fold, NoEmptyBucket, ContentsOf, Interpret;
      exchanged := {};
      ghost var verdict := Interpret(callback, Contents(), [], fuel).value;
      InterpretFolds(callback, Contents(), [], fuel);
      if cancelledBefore { return ContextError, exchanged; }
      var working := CloneBuckets(buckets);
      SameContents(buckets);
      var tx := new WriteTx(working);
      assert tx.Contents() == old(Contents());
      var failed;
      failed, exchanged := tx.Run(callback, fuel);
      SameContents(buckets);
      if failed { return CallbackError, exchanged; }
      if cancelledAfter { return ContextError, exchanged; }
      buckets := tx.buckets;
      if NoEmptyBucket(old(Contents())) { FoldKeepsNoEmptyBucket(old(Contents()), verdict.ops); }
      outcome := Committed;
    }
  }
}
