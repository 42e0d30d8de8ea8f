/** Durable storage: an ordered key-value store with the hard state under four named
    keys and one log entry per key.  Log keys are big-endian, so that key order is
    index order and a scan over keys is a range of indices. */
module Storage {
  import opened Types
  import opened RaftSpec

  type Key = string

  /** Stored values; numbers, votes, snapshots and entries are kept decoded. */
  datatype Value = Number(n: nat) | Vote(vote: Option<NodeId>) | Snap(snap: Snapshot) | Entry(entry: LogEntry)

  type Database = map<Key, Value>

  const TERM: Key := "term"
  const VOTED_FOR: Key := "voted_for"
  const LOG_OFFSET: Key := "log_offset"
  const SNAPSHOT: Key := "snapshot"
  const LOG_PREFIX: Key := "log\0"

  /** Indices are 64-bit. */
  const LIMIT: nat := 0x1_0000_0000_0000_0000

  function BigEndian(n: nat, width: nat): Key {
    if width == 0 then "" else BigEndian(n / 256, width - 1) + [(n % 256) as char]
  }

  function LogKey(index: nat): Key {
    LOG_PREFIX + BigEndian(index, 8)
  }

  /** Lexicographic order on keys. */
  predicate Less(a: Key, b: Key) {
    b != [] && (a == [] || a[0] < b[0] || (a[0] == b[0] && Less(a[1..], b[1..])))
  }

  // ----- the key order ---------------------------------------------------------------

  function Span(width: nat): nat {
    if width == 0 then 1 else 256 * Span(width - 1)
  }

  lemma {:induction false} LessSnoc(a: Key, b: Key, x: char, y: char)
    requires |a| == |b|
    ensures Less(a + [x], b + [y]) <==> Less(a, b) || (a == b && x < y)
  {
    if a != [] {
      assert (a + [x])[1..] == a[1..] + [x] && (b + [y])[1..] == b[1..] + [y];
      LessSnoc(a[1..], b[1..], x, y);
      assert a == b <==> a[0] == b[0] && a[1..] == b[1..];
    }
  }

  lemma {:induction false} LessPrefixed(p: Key, a: Key, b: Key)
    ensures Less(p + a, p + b) <==> Less(a, b)
  {
    if p == [] {
      assert p + a == a && p + b == b;
    } else {
      assert (p + a)[1..] == p[1..] + a && (p + b)[1..] == p[1..] + b;
      LessPrefixed(p[1..], a, b);
    }
  }

  lemma {:induction false} BigEndianOrder(i: nat, j: nat, width: nat)
    requires i < Span(width) && j < Span(width)
    ensures |BigEndian(i, width)| == |BigEndian(j, width)| == width
    ensures Less(BigEndian(i, width), BigEndian(j, width)) <==> i < j
    ensures BigEndian(i, width) == BigEndian(j, width) <==> i == j
  {
    if width > 0 {
      BigEndianOrder(i / 256, j / 256, width - 1);
      var a, b := BigEndian(i / 256, width - 1), BigEndian(j / 256, width - 1);
      LessSnoc(a, b, (i % 256) as char, (j % 256) as char);
      assert (a + [(i % 256) as char])[..width - 1] == a && (b + [(j % 256) as char])[..width - 1] == b;
    }
  }

  lemma SpanOfIndices()
    ensures Span(8) == LIMIT
  {
    assert Span(2) == 0x1_0000;
    assert Span(4) == 0x1_0000_0000;
    assert Span(6) == 0x1_0000_0000_0000;
  }

  /** Key order is index order, and distinct indices have distinct keys. */
  lemma LogKeyOrder(i: nat, j: nat)
    requires i < LIMIT && j < LIMIT
    ensures Less(LogKey(i), LogKey(j)) <==> i < j
    ensures LogKey(i) == LogKey(j) <==> i == j
  {
    SpanOfIndices();
    BigEndianOrder(i, j, 8);
    LessPrefixed(LOG_PREFIX, BigEndian(i, 8), BigEndian(j, 8));
    assert LogKey(i)[4..] == BigEndian(i, 8) && LogKey(j)[4..] == BigEndian(j, 8);
  }

  predicate IsNamed(k: Key) {
    k == TERM || k == VOTED_FOR || k == LOG_OFFSET || k == SNAPSHOT
  }

  ghost predicate IsLogKey(k: Key, lo: nat, hi: nat) {
    exists i :: lo <= i < hi && k == LogKey(i)
  }

  predicate StartsWith(k: Key, prefix: Key) {
    |k| >= |prefix| && k[..|prefix|] == prefix
  }

  /** Named keys follow every log key and do not share its prefix. */
  lemma NamedAfterLog(k: Key, i: nat)
    requires IsNamed(k) && i < LIMIT
    ensures Less(LogKey(i), k) && !Less(k, LogKey(i)) && k != LogKey(i)
    ensures !StartsWith(k, LOG_PREFIX) && StartsWith(LogKey(i), LOG_PREFIX)
  {
    var l := LogKey(i);
    assert l[0] == 'l' && l[1] == 'o' && l[2] == 'g' && l[3] == '\0';
    assert l[..4] == LOG_PREFIX;
    if k == LOG_OFFSET {
      var rest := "\0" + BigEndian(i, 8);
      assert l == "log" + rest && k == "log" + "_offset";
      LessPrefixed("log", rest, "_offset");
      LessPrefixed("log", "_offset", rest);
      assert k[..4][3] == '_';
    }
  }

  lemma {:induction false} LessIrreflexive(a: Key)
    ensures !Less(a, a)
  {
    if a != [] {
      LessIrreflexive(a[1..]);
    }
  }

  lemma {:induction false} LessTotal(a: Key, b: Key)
    ensures a == b || Less(a, b) || Less(b, a)
  {
    if a != [] && b != [] && a[0] == b[0] {
      LessTotal(a[1..], b[1..]);
      assert a == [a[0]] + a[1..] && b == [b[0]] + b[1..];
    }
  }

  lemma {:induction false} LessTransitive(a: Key, b: Key, c: Key)
    requires Less(a, b) && Less(b, c)
    ensures Less(a, c)
  {
    if a != [] && a[0] == b[0] && b[0] == c[0] {
      LessTransitive(a[1..], b[1..], c[1..]);
    }
  }

  // ----- contents ----------------------------------------------------------------------

  /** Only the schema's keys, each with its own kind of value. */
  ghost predicate WellFormed(db: Database) {
    && KnownKeys(db)
    && (TERM in db ==> db[TERM].Number?)
    && (VOTED_FOR in db ==> db[VOTED_FOR].Vote?)
    && (LOG_OFFSET in db ==> db[LOG_OFFSET].Number? && db[LOG_OFFSET].n + 1 < LIMIT)
    && (SNAPSHOT in db ==> db[SNAPSHOT].Snap?)
    && (forall i :: 0 <= i < LIMIT && LogKey(i) in db ==> db[LogKey(i)].Entry?)
  }

  /** The stored log keys with an index in lo..hi-1. */
  ghost function LogKeys(db: Database, lo: nat, hi: nat): set<Key> {
    set k | k in db && IsLogKey(k, lo, hi)
  }

  ghost predicate Ascending(keys: seq<Key>) {
    forall i, j :: 0 <= i < j < |keys| ==> Less(keys[i], keys[j])
  }

  /** What an ordered iterator positioned at a key yields. */
  ghost predicate IsScan(db: Database, start: Key, keys: seq<Key>) {
    && Ascending(keys)
    && (forall k :: k in keys <==> k in db && !Less(k, start))
  }

  /** The values under the keys, in the same order. */
  ghost predicate Reads(db: Database, keys: seq<Key>, log: seq<LogEntry>) {
    |log| == |keys| && forall i :: 0 <= i < |keys| ==> keys[i] in db && db[keys[i]] == Entry(log[i])
  }

  /** All log keys from an index on, in increasing order. */
  ghost predicate Lists(db: Database, start: nat, keys: seq<Key>) {
    Ascending(keys) && forall k :: k in keys <==> k in LogKeys(db, start, LIMIT)
  }

  ghost predicate LoadsLog(db: Database, offset: nat, log: seq<LogEntry>) {
    exists keys :: Lists(db, offset + 1, keys) && Reads(db, keys, log)
  }

  /** p is what a load finds. */
  ghost predicate IsLoaded(db: Database, p: Persisted) {
    && TERM in db && db[TERM] == Number(p.currentTerm)
    && p.votedFor == (if VOTED_FOR in db && db[VOTED_FOR].Vote? then db[VOTED_FOR].vote else None)
    && p.logOffset == (if LOG_OFFSET in db && db[LOG_OFFSET].Number? then db[LOG_OFFSET].n else 0)
    && p.snapshot == (if SNAPSHOT in db && db[SNAPSHOT].Snap? then Some(db[SNAPSHOT].snap) else None)
    && LoadsLog(db, p.logOffset, p.log)
  }

  function Lookup(db: Database, k: Key): Option<Value> {
    if k in db then Some(db[k]) else None
  }

  /** The values under the four named keys. */
  datatype Header = Header(term: Option<Value>, vote: Option<Value>, offset: Option<Value>, snap: Option<Value>)

  function ReadHeader(db: Database): Header {
    Header(Lookup(db, TERM), Lookup(db, VOTED_FOR), Lookup(db, LOG_OFFSET), Lookup(db, SNAPSHOT))
  }

  function HeaderOf(p: Persisted): Header {
    Header(Some(Number(p.currentTerm)), Some(Vote(p.votedFor)), Some(Number(p.logOffset)),
           if p.snapshot.Some? then Some(Snap(p.snapshot.value)) else None)
  }

  ghost predicate KnownKeys(db: Database) {
    forall k :: k in db ==> IsNamed(k) || IsLogKey(k, 0, LIMIT)
  }

  /** The store holds exactly p. */
  ghost predicate Represents(db: Database, p: Persisted) {
    KnownKeys(db) && ReadHeader(db) == HeaderOf(p) && StoresLog(db, p.logOffset, p.log)
  }

  ghost predicate StoresLog(db: Database, offset: nat, log: seq<LogEntry>) {
    && offset + |log| + 1 < LIMIT
    && (forall i :: 0 <= i < LIMIT ==> (LogKey(i) in db <==> offset < i <= offset + |log|))
    && (forall k :: 0 <= k < |log| ==> LogKey(offset + 1 + k) in db && db[LogKey(offset + 1 + k)] == Entry(log[k]))
  }

  /** What the store holds, if it is a whole state. */
  ghost function Contents(db: Database): Option<Persisted> {
    if p :| Represents(db, p) then Some(p) else None
  }

  lemma ContentsExact(db: Database, p: Persisted)
    ensures Contents(db) == Some(p) <==> Represents(db, p)
  {
    forall q | Represents(db, q) && Represents(db, p) ensures p == q {
      assert HeaderOf(p) == HeaderOf(q);
      SameLog(db, p.logOffset, p.log, q.log);
    }
  }

  lemma NoLonger(db: Database, offset: nat, a: seq<LogEntry>, b: seq<LogEntry>)
    requires StoresLog(db, offset, a) && StoresLog(db, offset, b)
    ensures |a| <= |b|
  {
    if a != [] {
      assert LogKey(offset + 1 + (|a| - 1)) in db;
    }
  }

  lemma SameLog(db: Database, offset: nat, a: seq<LogEntry>, b: seq<LogEntry>)
    requires StoresLog(db, offset, a) && StoresLog(db, offset, b)
    ensures a == b
  {
    NoLonger(db, offset, a, b);
    NoLonger(db, offset, b, a);
    forall k | 0 <= k < |a| ensures a[k] == b[k] {
      assert db[LogKey(offset + 1 + k)] == Entry(a[k]);
    }
  }

  lemma ContentsWellFormed(db: Database, p: Persisted)
    requires Contents(db) == Some(p)
    ensures WellFormed(db)
  {
    ContentsExact(db, p);
    forall i | 0 <= i < LIMIT && LogKey(i) in db ensures db[LogKey(i)].Entry? {
      var k := i - p.logOffset - 1;
      assert db[LogKey(p.logOffset + 1 + k)] == Entry(p.log[k]);
    }
    assert ReadHeader(db) == HeaderOf(p);
  }

  // ----- scans -------------------------------------------------------------------------

  method Smallest(keys: set<Key>) returns (least: Key)
    requires keys != {}
    ensures least in keys && forall k :: k in keys && k != least ==> Less(least, k)
  {
    least :| least in keys;
    var rest := keys - {least};
    while rest != {}
      invariant rest <= keys && least in keys - rest
      invariant forall k :: k in keys - rest && k != least ==> Less(least, k)
      decreases rest
    {
      var k :| k in rest;
      if Less(k, least) {
        forall j | j in keys - rest && j != least ensures Less(k, j) {
          LessTransitive(k, least, j);
        }
        least := k;
      } else {
        LessTotal(k, least);
      }
      rest := rest - {k};
    }
  }

  /** The keys a scan of the log visits before it leaves the log or reaches index hi. */
  method TakeLogKeys(db: Database, start: nat, hi: nat, keys: seq<Key>) returns (taken: seq<Key>)
    requires KnownKeys(db) && start < LIMIT && hi <= LIMIT && IsScan(db, LogKey(start), keys)
    ensures Ascending(taken) && forall k :: k in taken <==> k in LogKeys(db, start, hi)
  {
    var n := 0;
    while n < |keys| && Below(keys[n], hi)
      invariant n <= |keys| && forall k :: 0 <= k < n ==> Below(keys[k], hi)
    {
      n := n + 1;
    }
    taken := keys[..n];
    ScanIsRange(db, start, hi, keys, n);
  }

  /** The test that keeps a scan going; hi == LIMIT stands for no upper bound. */
  predicate Below(k: Key, hi: nat) {
    StartsWith(k, LOG_PREFIX) && (hi == LIMIT || Less(k, LogKey(hi)))
  }

  lemma BelowIsIndex(k: Key, i: nat, hi: nat)
    requires k == LogKey(i) && i < LIMIT && hi <= LIMIT
    ensures Below(k, hi) <==> i < hi
  {
    NamedAfterLog(TERM, i);
    if hi < LIMIT {
      LogKeyOrder(i, hi);
    }
  }

  /** The first n keys of the scan, up to the first that fails the test, are the range. */
  lemma ScanIsRange(db: Database, start: nat, hi: nat, keys: seq<Key>, n: nat)
    requires KnownKeys(db) && start < LIMIT && hi <= LIMIT && IsScan(db, LogKey(start), keys)
    requires n <= |keys| && forall k :: 0 <= k < n ==> Below(keys[k], hi)
    requires n < |keys| ==> !Below(keys[n], hi)
    ensures forall k :: k in keys[..n] <==> k in LogKeys(db, start, hi)
  {
    forall k | k in keys[..n] ensures IsLogKey(k, start, hi) {
      assert k in keys;
      if IsNamed(k) {
        NamedAfterLog(k, start);
      }
      var i :| 0 <= i < LIMIT && k == LogKey(i);
      LogKeyOrder(i, start);
      BelowIsIndex(k, i, hi);
    }
    forall k | k in db && IsLogKey(k, start, hi) ensures k in keys[..n] {
      var i :| start <= i < hi && k == LogKey(i);
      LogKeyOrder(i, start);
      BelowIsIndex(k, i, hi);
      assert k in keys;
      var m :| 0 <= m < |keys| && keys[m] == k;
      if n < |keys| && n < m {
        StaysBelow(db, keys, n, m, i, hi);
      }
    }
  }

  /** Only log keys of smaller index come before a log key. */
  lemma StaysBelow(db: Database, keys: seq<Key>, n: nat, m: nat, i: nat, hi: nat)
    requires KnownKeys(db) && Ascending(keys) && n < m < |keys| && i < hi <= LIMIT && keys[m] == LogKey(i)
    requires keys[n] in db
    ensures Below(keys[n], hi)
  {
    if IsNamed(keys[n]) {
      NamedAfterLog(keys[n], i);
    } else {
      var j :| 0 <= j < LIMIT && keys[n] == LogKey(j);
      LogKeyOrder(j, i);
      BelowIsIndex(keys[n], j, hi);
    }
  }

  // ----- what the writes keep ------------------------------------------------------------

  lemma PutNamed(db: Database, name: Key, v: Value)
    requires KnownKeys(db) && IsNamed(name)
    ensures KnownKeys(db[name := v])
    ensures forall i :: 0 <= i < LIMIT ==> LogKey(i) != name
  {
    forall i | 0 <= i < LIMIT ensures LogKey(i) != name {
      NamedAfterLog(name, i);
    }
  }

  lemma SameLogKeys(db: Database, db': Database, lo: nat, hi: nat)
    requires hi <= LIMIT && forall i :: 0 <= i < LIMIT ==> (LogKey(i) in db <==> LogKey(i) in db')
    ensures LogKeys(db, lo, hi) == LogKeys(db', lo, hi)
  {
  }

  lemma RangeHasIndex(db: Database, i: nat, lo: nat, hi: nat)
    requires i < LIMIT && hi <= LIMIT
    ensures LogKey(i) in LogKeys(db, lo, hi) <==> LogKey(i) in db && lo <= i < hi
  {
    if j :| lo <= j < hi && LogKey(i) == LogKey(j) {
      LogKeyOrder(i, j);
    }
  }

  lemma RemoveLogKeys(db: Database, lo: nat, hi: nat)
    requires KnownKeys(db) && hi <= LIMIT
    ensures var db' := db - LogKeys(db, lo, hi);
            && KnownKeys(db') && ReadHeader(db') == ReadHeader(db)
            && (forall i :: 0 <= i < LIMIT ==> (LogKey(i) in db' <==> LogKey(i) in db && !(lo <= i < hi)))
            && (forall i :: 0 <= i < LIMIT && LogKey(i) in db' ==> db'[LogKey(i)] == db[LogKey(i)])
  {
    var db' := db - LogKeys(db, lo, hi);
    forall k | IsNamed(k) ensures k !in LogKeys(db, lo, hi) {
      if IsLogKey(k, lo, hi) {
        var i :| lo <= i < hi && k == LogKey(i);
        NamedAfterLog(k, i);
      }
    }
    forall i | 0 <= i < LIMIT ensures LogKey(i) in db' <==> LogKey(i) in db && !(lo <= i < hi) {
      RangeHasIndex(db, i, lo, hi);
    }
  }

  function WriteHard(db: Database, term: nat, vote: Option<NodeId>, offset: nat): Database {
    db[TERM := Number(term)][VOTED_FOR := Vote(vote)][LOG_OFFSET := Number(offset)]
  }

  /** Saving the hard state changes the term and the vote. */
  lemma HardStateKept(db: Database, p: Persisted, term: nat, vote: Option<NodeId>)
    requires Contents(db) == Some(p) || (db == map[] && p.logOffset == 0 && p.snapshot == None && p.log == [])
    ensures Contents(WriteHard(db, term, vote, p.logOffset)) == Some(p.(currentTerm := term, votedFor := vote))
  {
    ContentsExact(db, p);
    PutNamed(db, TERM, Number(term));
    PutNamed(db[TERM := Number(term)], VOTED_FOR, Vote(vote));
    PutNamed(db[TERM := Number(term)][VOTED_FOR := Vote(vote)], LOG_OFFSET, Number(p.logOffset));
    ContentsExact(WriteHard(db, term, vote, p.logOffset), p.(currentTerm := term, votedFor := vote));
  }

  lemma AppendStores(db: Database, offset: nat, log: seq<LogEntry>, e: LogEntry)
    requires StoresLog(db, offset, log) && e.index == offset + |log| + 1 && e.index + 1 < LIMIT
    ensures StoresLog(db[LogKey(e.index) := Entry(e)], offset, log + [e])
  {
    forall i | 0 <= i < LIMIT ensures LogKey(i) == LogKey(e.index) <==> i == e.index {
      LogKeyOrder(i, e.index);
    }
  }

  /** Appending the next entry appends to the stored log. */
  lemma AppendKept(db: Database, p: Persisted, e: LogEntry)
    requires Contents(db) == Some(p) && e.index == p.logOffset + |p.log| + 1 && e.index + 1 < LIMIT
    ensures Contents(db[LogKey(e.index) := Entry(e)]) == Some(p.(log := p.log + [e]))
  {
    ContentsExact(db, p);
    NamedAfterLog(TERM, e.index);
    NamedAfterLog(VOTED_FOR, e.index);
    NamedAfterLog(LOG_OFFSET, e.index);
    NamedAfterLog(SNAPSHOT, e.index);
    AppendStores(db, p.logOffset, p.log, e);
    ContentsExact(db[LogKey(e.index) := Entry(e)], p.(log := p.log + [e]));
  }

  function Cut(p: Persisted, from: nat): seq<LogEntry>
    requires p.logOffset < from
  {
    if from - p.logOffset - 1 < |p.log| then p.log[..from - p.logOffset - 1] else p.log
  }

  function Past(p: Persisted, offset: nat): seq<LogEntry>
    requires p.logOffset <= offset
  {
    if offset - p.logOffset <= |p.log| then p.log[offset - p.logOffset..] else []
  }

  /** Deleting from an index on cuts the stored log there. */
  lemma TruncateKept(db: Database, p: Persisted, from: nat)
    requires Contents(db) == Some(p) && p.logOffset < from
    ensures Contents(db - LogKeys(db, from, LIMIT)) == Some(p.(log := Cut(p, from)))
  {
    ContentsExact(db, p);
    RemoveLogKeys(db, from, LIMIT);
    ContentsExact(db - LogKeys(db, from, LIMIT), p.(log := Cut(p, from)));
  }

  lemma StoredTail(db: Database, db': Database, offset: nat, log: seq<LogEntry>, offset': nat)
    requires StoresLog(db, offset, log) && offset <= offset' && offset' + 1 < LIMIT
    requires forall i :: 0 <= i < LIMIT ==> (LogKey(i) in db' <==> LogKey(i) in db && !(1 <= i < offset' + 1))
    requires forall i :: 0 <= i < LIMIT && LogKey(i) in db' ==> db'[LogKey(i)] == db[LogKey(i)]
    ensures StoresLog(db', offset', if offset' - offset <= |log| then log[offset' - offset..] else [])
  {
  }

  function WriteSnapshot(db: Database, snap: Snapshot, offset: nat): Database {
    db[SNAPSHOT := Snap(snap)][LOG_OFFSET := Number(offset)]
  }

  lemma SnapshotNamed(db: Database, snap: Snapshot, offset: nat)
    requires KnownKeys(db) && offset < LIMIT
    ensures KnownKeys(WriteSnapshot(db, snap, offset))
    ensures LogKeys(WriteSnapshot(db, snap, offset), 1, offset + 1) == LogKeys(db, 1, offset + 1)
    ensures LogKeys(db, 1, 1) == {}
  {
    PutNamed(db, SNAPSHOT, Snap(snap));
    PutNamed(db[SNAPSHOT := Snap(snap)], LOG_OFFSET, Number(offset));
    SameLogKeys(db, WriteSnapshot(db, snap, offset), 1, offset + 1);
  }

  /** Saving a snapshot drops the entries up to its offset from the stored log. */
  lemma SnapshotKept(db: Database, p: Persisted, snap: Snapshot, offset: nat)
    requires Contents(db) == Some(p) && p.logOffset <= offset && offset + 1 < LIMIT
    ensures Contents(WriteSnapshot(db, snap, offset) - LogKeys(db, 1, offset + 1))
         == Some(p.(snapshot := Some(snap), logOffset := offset, log := Past(p, offset)))
  {
    ContentsExact(db, p);
    var db1 := WriteSnapshot(db, snap, offset);
    SnapshotNamed(db, snap, offset);
    SnapshotStores(db, p, snap, offset);
    RemoveLogKeys(db1, 1, offset + 1);
    StoredTail(db1, db1 - LogKeys(db1, 1, offset + 1), p.logOffset, p.log, offset);
    ContentsExact(db1 - LogKeys(db1, 1, offset + 1),
                  p.(snapshot := Some(snap), logOffset := offset, log := Past(p, offset)));
  }

  lemma SnapshotStores(db: Database, p: Persisted, snap: Snapshot, offset: nat)
    requires Represents(db, p)
    ensures StoresLog(WriteSnapshot(db, snap, offset), p.logOffset, p.log)
    ensures ReadHeader(WriteSnapshot(db, snap, offset)) == HeaderOf(p.(snapshot := Some(snap), logOffset := offset))
  {
    PutNamed(db, SNAPSHOT, Snap(snap));
    PutNamed(db[SNAPSHOT := Snap(snap)], LOG_OFFSET, Number(offset));
  }

  // ----- loading -------------------------------------------------------------------------

  /** An increasing listing of a set is unique. */
  lemma {:induction false} AscendingUnique(a: seq<Key>, b: seq<Key>)
    requires Ascending(a) && Ascending(b) && forall k :: k in a <==> k in b
    ensures a == b
  {
    if a == [] {
      HeadIsMember(b);
    } else {
      assert a[0] in a && a[0] in b;
      SameHead(a, b);
      TailMembers(a);
      TailMembers(b);
      AscendingUnique(a[1..], b[1..]);
    }
  }

  lemma HeadIsMember(a: seq<Key>)
    ensures a != [] ==> a[0] in a
  {
  }

  lemma SameHead(a: seq<Key>, b: seq<Key>)
    requires Ascending(a) && Ascending(b) && a != [] && b != []
    requires a[0] in b && b[0] in a
    ensures a[0] == b[0]
  {
    if a[0] != b[0] {
      LessTransitive(a[0], b[0], a[0]);
      LessIrreflexive(a[0]);
    }
  }

  lemma TailMembers(a: seq<Key>)
    requires Ascending(a) && a != []
    ensures forall k :: k in a[1..] <==> k in a && k != a[0]
  {
    LessIrreflexive(a[0]);
  }

  ghost function KeysFrom(offset: nat, n: nat): seq<Key> {
    seq(n, k requires 0 <= k < n => LogKey(offset + 1 + k))
  }

  lemma StoredKeys(db: Database, offset: nat, log: seq<LogEntry>)
    requires StoresLog(db, offset, log)
    ensures Lists(db, offset + 1, KeysFrom(offset, |log|))
  {
    KeysAscend(offset, |log|);
    forall k ensures k in KeysFrom(offset, |log|) <==> k in LogKeys(db, offset + 1, LIMIT) {
      StoredKey(db, offset, log, k);
    }
  }

  lemma KeysAscend(offset: nat, n: nat)
    requires offset + n + 1 < LIMIT
    ensures Ascending(KeysFrom(offset, n))
  {
    var keys := KeysFrom(offset, n);
    forall i, j | 0 <= i < j < |keys| ensures Less(keys[i], keys[j]) {
      LogKeyOrder(offset + 1 + i, offset + 1 + j);
    }
  }

  lemma StoredKey(db: Database, offset: nat, log: seq<LogEntry>, k: Key)
    requires StoresLog(db, offset, log)
    ensures k in KeysFrom(offset, |log|) <==> k in LogKeys(db, offset + 1, LIMIT)
  {
    if k in LogKeys(db, offset + 1, LIMIT) {
      var i :| offset + 1 <= i < LIMIT && k == LogKey(i);
      assert k == KeysFrom(offset, |log|)[i - offset - 1];
    }
  }

  lemma SameRead(db: Database, offset: nat, log: seq<LogEntry>, keys: seq<Key>, got: seq<LogEntry>)
    requires StoresLog(db, offset, log) && Lists(db, offset + 1, keys) && Reads(db, keys, got)
    ensures got == log
  {
    StoredKeys(db, offset, log);
    AscendingUnique(keys, KeysFrom(offset, |log|));
    forall k | 0 <= k < |log| ensures got[k] == log[k] {
      assert keys[k] == LogKey(offset + 1 + k);
    }
  }

  /** A load returns exactly what is stored. */
  lemma LoadExact(db: Database, p: Persisted, q: Persisted)
    requires Contents(db) == Some(p) && IsLoaded(db, q)
    ensures p == q
  {
    ContentsExact(db, p);
    var keys :| Lists(db, q.logOffset + 1, keys) && Reads(db, keys, q.log);
    SameRead(db, p.logOffset, p.log, keys, q.log);
  }

  // ----- operations ----------------------------------------------------------------------

  class RaftStorage {
    var db: Database

    constructor ()
      ensures db == map[]
    {
      db := map[];
    }

    /** The store's iterator from a key on. */
    method Scan(start: Key) returns (keys: seq<Key>)
      ensures IsScan(db, start, keys)
    {
      var rest := set k | k in db && !Less(k, start);
      keys := [];
      while rest != {}
        invariant Ascending(keys)
        invariant forall k :: k in rest ==> forall i :: 0 <= i < |keys| ==> Less(keys[i], k)
        invariant forall k :: k in keys || k in rest <==> k in db && !Less(k, start)
        decreases rest
      {
        var least := Smallest(rest);
        keys := keys + [least];
        rest := rest - {least};
      }
    }

    method SaveHardState(term: nat, votedFor: Option<NodeId>, logOffset: nat)
      modifies this
      ensures db == WriteHard(old(db), term, votedFor, logOffset)
    {
      db := db[TERM := Number(term)];
      db := db[VOTED_FOR := Vote(votedFor)];
      db := db[LOG_OFFSET := Number(logOffset)];
    }

    method AppendEntry(entry: LogEntry)
      modifies this
      ensures db == old(db)[LogKey(entry.index) := Entry(entry)]
    {
      db := db[LogKey(entry.index) := Entry(entry)];
    }

    method DeleteAll(keys: seq<Key>)
      modifies this
      ensures db == old(db) - set k | k in keys
    {
      for i := 0 to |keys|
        invariant db == old(db) - set k | k in keys[..i]
      {
        db := db - {keys[i]};
      }
      assert keys[..|keys|] == keys;
    }

    /** Removes exactly the entries at or after an index. */
    method TruncateFrom(from: nat)
      requires KnownKeys(db) && from < LIMIT
      modifies this
      ensures db == old(db) - LogKeys(old(db), from, LIMIT)
    {
      DeleteRange(from, LIMIT);
    }

    /** Stores a snapshot and removes exactly the entries it covers. */
    method SaveSnapshot(snapshot: Snapshot, logOffset: nat)
      requires KnownKeys(db) && logOffset + 1 < LIMIT
      modifies this
      ensures db == WriteSnapshot(old(db), snapshot, logOffset) - LogKeys(old(db), 1, logOffset + 1)
    {
      db := db[SNAPSHOT := Snap(snapshot)];
      db := db[LOG_OFFSET := Number(logOffset)];
      SnapshotNamed(old(db), snapshot, logOffset);
      if logOffset > 0 {
        DeleteRange(1, logOffset + 1);
      }
    }

    /** Collects the log keys of a range and deletes them. */
    method DeleteRange(lo: nat, hi: nat)
      requires KnownKeys(db) && lo < LIMIT && hi <= LIMIT
      modifies this
      ensures db == old(db) - LogKeys(old(db), lo, hi)
    {
      var keys := Scan(LogKey(lo));
      var doomed := TakeLogKeys(db, lo, hi, keys);
      DeleteAll(doomed);
      assert (set k | k in doomed) == LogKeys(old(db), lo, hi);
    }

    /** The entries past the offset, in index order. */
    method LoadLog(logOffset: nat) returns (log: seq<LogEntry>)
      requires WellFormed(db) && logOffset + 1 < LIMIT
      ensures LoadsLog(db, logOffset, log)
    {
      var keys := Scan(LogKey(logOffset + 1));
      var taken := TakeLogKeys(db, logOffset + 1, LIMIT, keys);
      log := [];
      for i := 0 to |taken|
        invariant Reads(db, taken[..i], log)
      {
        assert taken[i] in LogKeys(db, logOffset + 1, LIMIT);
        log := log + [db[taken[i]].entry];
      }
      assert taken[..|taken|] == taken;
      assert Lists(db, logOffset + 1, taken);
    }

    /** Reads back what is stored; a store without a term is fresh. */
    method Load() returns (r: Option<Persisted>)
      requires WellFormed(db)
      ensures r.Some? <==> TERM in db
      ensures r.Some? ==> IsLoaded(db, r.value)
    {
      if TERM !in db {
        return None;
      }
      var votedFor := if VOTED_FOR in db then db[VOTED_FOR].vote else None;
      var logOffset := if LOG_OFFSET in db then db[LOG_OFFSET].n else 0;
      var snapshot := if SNAPSHOT in db then Some(db[SNAPSHOT].snap) else None;
      var log := LoadLog(logOffset);
      r := Some(Persisted(db[TERM].n, votedFor, logOffset, snapshot, log));
    }
  }
}
