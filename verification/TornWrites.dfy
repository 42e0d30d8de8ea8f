/** A crash in the middle of saving the hard state: what a load then finds. */
module TornWrites {
  import opened Types
  import opened RaftSpec
  import opened Cluster
  import opened Storage
  import WideRuns

  /** The store after the first k of the three puts that save the hard state of s. */
  function Puts(db: Database, s: NodeState, k: nat): Database {
    if k == 0 then db
    else if k == 1 then db[TERM := Number(s.currentTerm)]
    else if k == 2 then db[TERM := Number(s.currentTerm)][VOTED_FOR := Vote(s.votedFor)]
    else WriteHard(db, s.currentTerm, s.votedFor, s.logOffset)
  }

  /** Entries below an offset that is already written are no longer found. */
  function Left(s: NodeState, s': NodeState, k: nat): Persisted
    requires s.logOffset <= s'.logOffset
  {
    var offset := if k >= 3 then s'.logOffset else s.logOffset;
    Persisted(if k >= 1 then s'.currentTerm else s.currentTerm, if k >= 2 then s'.votedFor else s.votedFor,
              offset, s.snapshot, Past(Durable(s), offset))
  }

  lemma PutsHeader(db: Database, s: NodeState, s': NodeState, k: nat)
    requires Represents(db, Durable(s)) && s.logOffset <= s'.logOffset
    ensures ReadHeader(Puts(db, s', k)) == HeaderOf(Left(s, s', k))
  {
    PutNamed(db, TERM, Number(s'.currentTerm));
    PutNamed(db[TERM := Number(s'.currentTerm)], VOTED_FOR, Vote(s'.votedFor));
    PutNamed(db[TERM := Number(s'.currentTerm)][VOTED_FOR := Vote(s'.votedFor)], LOG_OFFSET, Number(s'.logOffset));
  }

  lemma PutsStore(db: Database, s: NodeState, s': NodeState, k: nat)
    requires Represents(db, Durable(s))
    ensures KnownKeys(Puts(db, s', k)) && StoresLog(Puts(db, s', k), s.logOffset, s.log)
  {
    PutStores(db, TERM, Number(s'.currentTerm), s);
    PutStores(Puts(db, s', 1), VOTED_FOR, Vote(s'.votedFor), s);
    PutStores(Puts(db, s', 2), LOG_OFFSET, Number(s'.logOffset), s);
  }

  lemma PutStores(db: Database, name: Key, v: Value, s: NodeState)
    requires KnownKeys(db) && StoresLog(db, s.logOffset, s.log) && IsNamed(name)
    ensures KnownKeys(db[name := v]) && StoresLog(db[name := v], s.logOffset, s.log)
  {
    PutNamed(db, name, v);
  }

  lemma HeaderLoaded(db: Database, p: Persisted, q: Persisted)
    requires ReadHeader(db) == HeaderOf(p) && IsLoaded(db, q)
    ensures q == p.(log := q.log)
  {
  }

  /** A listing from an index on does not see what is removed below it. */
  lemma ListsAbove(db: Database, o: nat, keys: seq<Key>)
    requires KnownKeys(db) && o + 1 < LIMIT && Lists(db, o + 1, keys)
    ensures Lists(db - LogKeys(db, 1, o + 1), o + 1, keys)
  {
    var db' := db - LogKeys(db, 1, o + 1);
    RemoveLogKeys(db, 1, o + 1);
    var above := LogKeys(db, o + 1, LIMIT);
    forall k | k in above ensures k in LogKeys(db', o + 1, LIMIT) {
      var i :| o + 1 <= i < LIMIT && k == LogKey(i);
      assert LogKey(i) in db';
    }
    assert above == LogKeys(db', o + 1, LIMIT);
  }

  lemma ReadsAbove(db: Database, o: nat, keys: seq<Key>, log: seq<LogEntry>)
    requires KnownKeys(db) && o + 1 < LIMIT && Lists(db, o + 1, keys) && Reads(db, keys, log)
    ensures Reads(db - LogKeys(db, 1, o + 1), keys, log)
  {
    ListsAbove(db, o, keys);
    forall i | 0 <= i < |keys| ensures keys[i] in db - LogKeys(db, 1, o + 1) {
      assert keys[i] in keys;
    }
  }

  /** What is read past an offset of a stored log is the rest of that log. */
  lemma TailRead(db: Database, p: Persisted, o: nat, keys: seq<Key>, got: seq<LogEntry>)
    requires KnownKeys(db) && StoresLog(db, p.logOffset, p.log) && p.logOffset <= o && o + 1 < LIMIT
    requires Lists(db, o + 1, keys) && Reads(db, keys, got)
    ensures got == Past(p, o)
  {
    ListsAbove(db, o, keys);
    ReadsAbove(db, o, keys, got);
    RemoveLogKeys(db, 1, o + 1);
    var db' := db - LogKeys(db, 1, o + 1);
    StoredTail(db, db', p.logOffset, p.log, o);
    SameRead(db', o, Past(p, o), keys, got);
  }

  /** A load after the first k puts finds the new term and vote as far as they were
      written, and of the log what lies past the offset that was written. */
  lemma TornLoad(db: Database, s: NodeState, s': NodeState, k: nat, q: Persisted)
    requires Contents(db) == Some(Durable(s)) && s.logOffset <= s'.logOffset && s'.logOffset + 1 < LIMIT
    requires IsLoaded(Puts(db, s', k), q)
    ensures q == Left(s, s', k)
  {
    ContentsExact(db, Durable(s));
    var db1 := Puts(db, s', k);
    PutsHeader(db, s, s', k);
    PutsStore(db, s, s', k);
    HeaderLoaded(db1, Left(s, s', k), q);
    var keys :| Lists(db1, q.logOffset + 1, keys) && Reads(db1, keys, q.log);
    TailRead(db1, Durable(s), q.logOffset, keys, q.log);
  }

  /** Of a handler that leaves the offset alone, what is reloaded is the torn state. */
  lemma TornIsLoaded(db: Database, s: NodeState, s': NodeState, k: nat, q: Persisted)
    requires Contents(db) == Some(Durable(s)) && s'.logOffset == s.logOffset && s.logOffset + 1 < LIMIT
    requires IsLoaded(Puts(db, s', k), q)
    ensures Restore(q) == Torn(s, s', k)
  {
    TornLoad(db, s, s', k, q);
    assert s.log[0..] == s.log;
  }

  /** Whatever a node was doing, what it reloads is among the states of wide runs. */
  lemma LoadedIsWide(db: Database, c: Cluster, n: NodeId, a: WideRuns.Act, k: nat, q: Persisted)
    requires n in c.nodes && Contents(db) == Some(Durable(c.nodes[n]))
    requires var s' := WideRuns.Perform(c.nodes[n], a); s'.logOffset + 1 < LIMIT && IsLoaded(Puts(db, s', k), q)
    ensures var deed := WideRuns.TornLocal(n, a, k, q);
            WideRuns.Possible(c, deed) && WideRuns.Advance(c, deed).nodes[n] == Restore(q)
  {
    OffsetGrows(c.nodes[n], a);
    TornLoad(db, c.nodes[n], WideRuns.Perform(c.nodes[n], a), k, q);
  }

  lemma OffsetGrows(s: NodeState, a: WideRuns.Act)
    ensures s.logOffset <= WideRuns.Perform(s, a).logOffset
  {
  }
}
