/** Requests that carry entries nobody can read: what they do to a log. */
module UnreadableEntries {
  import opened Types
  import opened RaftSpec
  import opened Wire
  import opened RaftStateObject

  // ----- gaps --------------------------------------------------------------------------------------

  ghost predicate WireNumbered(ws: seq<WireEntry>, base: nat) {
    forall k :: 0 <= k < |ws| ==> ws[k].index == base + 1 + k
  }

  ghost predicate NumberedFrom(log: seq<LogEntry>, base: nat) {
    forall k :: 0 <= k < |log| ==> log[k].index == base + 1 + k
  }

  /** No unreadable entry comes before a readable one. */
  ghost predicate ReadablePrefix(c: Codec, ws: seq<WireEntry>) {
    forall i, j :: 0 <= i < j < |ws| && Unreadable(c, ws[i]) ==> Unreadable(c, ws[j])
  }

  lemma {:induction false} DecodedWithin(c: Codec, ws: seq<WireEntry>, base: nat)
    requires WireNumbered(ws, base)
    ensures forall k :: 0 <= k < |DecodeAll(c, ws)| ==> base < DecodeAll(c, ws)[k].index <= base + |ws|
  {
    if ws != [] {
      TailNumbered(ws, base);
      DecodedWithin(c, ws[1..], base + 1);
    }
  }

  lemma {:induction false} DecodeSplit(c: Codec, ws: seq<WireEntry>, m: nat)
    requires m <= |ws|
    ensures DecodeAll(c, ws) == DecodeAll(c, ws[..m]) + DecodeAll(c, ws[m..])
    decreases m
  {
    if m == 0 {
      assert ws[0..] == ws;
    } else {
      DecodeSplit(c, ws[1..], m - 1);
      assert ws[1..][..m - 1] == ws[..m][1..] && ws[1..][m - 1..] == ws[m..];
      assert ws[..m][0] == ws[0];
    }
  }

  lemma {:induction false} NoneReadable(c: Codec, ws: seq<WireEntry>)
    ensures DecodeAll(c, ws) == [] <==> forall k :: 0 <= k < |ws| ==> Unreadable(c, ws[k])
  {
    if ws != [] {
      NoneReadable(c, ws[1..]);
      DroppedExact(c, ws[0]);
      assert forall k :: 0 <= k < |ws| - 1 ==> ws[1..][k] == ws[k + 1];
      if forall k :: 0 <= k < |ws[1..]| ==> Unreadable(c, ws[1..][k]) {
        assert forall k :: 1 <= k < |ws| ==> ws[k] == ws[1..][k - 1];
      }
    }
  }

  lemma PrefixTail(c: Codec, ws: seq<WireEntry>)
    requires ws != []
    ensures ReadablePrefix(c, ws) <==>
              if Unreadable(c, ws[0]) then forall k :: 0 <= k < |ws[1..]| ==> Unreadable(c, ws[1..][k])
              else ReadablePrefix(c, ws[1..])
  {
    var rest := ws[1..];
    assert forall k :: 0 <= k < |rest| ==> rest[k] == ws[k + 1];
    assert forall k :: 1 <= k < |ws| ==> ws[k] == rest[k - 1];
    if Unreadable(c, ws[0]) {
      if ReadablePrefix(c, ws) {
        forall k | 0 <= k < |rest| ensures Unreadable(c, rest[k]) {
          assert Unreadable(c, ws[k + 1]);
        }
      } else {
        var i, j :| 0 <= i < j < |ws| && Unreadable(c, ws[i]) && !Unreadable(c, ws[j]);
        assert !Unreadable(c, rest[j - 1]);
      }
    } else if ReadablePrefix(c, rest) {
      forall i, j | 0 <= i < j < |ws| && Unreadable(c, ws[i]) ensures Unreadable(c, ws[j]) {
        assert Unreadable(c, rest[i - 1]) && rest[j - 1] == ws[j];
      }
    } else {
      var i, j :| 0 <= i < j < |rest| && Unreadable(c, rest[i]) && !Unreadable(c, rest[j]);
      assert Unreadable(c, ws[i + 1]) && !Unreadable(c, ws[j + 1]);
    }
  }

  lemma ConsNumbered(e: LogEntry, log: seq<LogEntry>, base: nat)
    ensures NumberedFrom([e] + log, base) <==> e.index == base + 1 && NumberedFrom(log, base + 1)
  {
    assert forall k :: 0 <= k < |log| ==> ([e] + log)[k + 1] == log[k];
    assert ([e] + log)[0] == e;
  }

  lemma SkippedNumbering(log: seq<LogEntry>, base: nat)
    requires forall k :: 0 <= k < |log| ==> log[k].index > base + 1
    ensures NumberedFrom(log, base) <==> log == []
  {
    if log != [] {
      assert log[0].index != base + 1;
    }
  }

  /** What is read of consecutive entries is consecutive exactly when nothing is skipped. */
  lemma {:induction false} ReadNumbered(c: Codec, ws: seq<WireEntry>, base: nat)
    requires WireNumbered(ws, base)
    ensures NumberedFrom(DecodeAll(c, ws), base) <==> ReadablePrefix(c, ws)
  {
    if ws != [] {
      TailNumbered(ws, base);
      PrefixTail(c, ws);
      DroppedExact(c, ws[0]);
      if Decode(c, ws[0]).None? {
        DecodedWithin(c, ws[1..], base + 1);
        SkippedNumbering(DecodeAll(c, ws[1..]), base);
        NoneReadable(c, ws[1..]);
      } else {
        ConsNumbered(Decode(c, ws[0]).value, DecodeAll(c, ws[1..]), base);
        ReadNumbered(c, ws[1..], base + 1);
      }
    }
  }

  lemma TailNumbered(ws: seq<WireEntry>, base: nat)
    requires ws != [] && WireNumbered(ws, base)
    ensures ws[0].index == base + 1 && WireNumbered(ws[1..], base + 1)
  {
    assert forall k :: 0 <= k < |ws| - 1 ==> ws[1..][k] == ws[k + 1];
  }

  lemma StoredNumbering(s: NodeState, p: nat, entries: seq<LogEntry>)
    requires Contiguous(s) && p <= s.logOffset + |s.log|
    ensures Contiguous(s.TruncateAndAppend(p + 1, entries)) <==> NumberedFrom(entries, Max(p, s.logOffset))
  {
    var kept := if p <= s.logOffset then [] else s.log[..p - s.logOffset];
    assert s.TruncateAndAppend(p + 1, entries).log == kept + entries;
    assert forall k :: 0 <= k < |entries| ==> (kept + entries)[|kept| + k] == entries[k];
  }

  /** How many of the entries lie at or below the offset. */
  function Below(s: NodeState, w: WireAppend): nat {
    if w.prevLogIndex >= s.logOffset then 0 else Min(s.logOffset - w.prevLogIndex, |w.entries|)
  }

  lemma LowPart(low: seq<LogEntry>, high: seq<LogEntry>, offset: nat)
    requires forall k :: 0 <= k < |low| ==> low[k].index <= offset
    ensures NumberedFrom(low + high, offset) <==> low == [] && NumberedFrom(high, offset)
  {
    if low == [] {
      assert low + high == high;
    } else {
      assert (low + high)[0].index <= offset;
    }
  }

  lemma ReadFrom(s: NodeState, c: Codec, w: WireAppend)
    requires WireNumbered(w.entries, w.prevLogIndex)
    ensures var m := Below(s, w);
            NumberedFrom(DecodeAll(c, w.entries), Max(w.prevLogIndex, s.logOffset)) <==>
              (forall k :: 0 <= k < m ==> Unreadable(c, w.entries[k])) && ReadablePrefix(c, w.entries[m..])
  {
    var ws, m, o := w.entries, Below(s, w), Max(w.prevLogIndex, s.logOffset);
    DecodeSplit(c, ws, m);
    DecodedWithin(c, ws[..m], w.prevLogIndex);
    LowPart(DecodeAll(c, ws[..m]), DecodeAll(c, ws[m..]), o);
    NoneReadable(c, ws[..m]);
    assert forall k :: 0 <= k < m ==> ws[..m][k] == ws[k];
    if w.prevLogIndex + m == o {
      ReadNumbered(c, ws[m..], o);
    } else {
      assert ws[m..] == [];
    }
  }

  lemma SameLogAfter(s: NodeState, s': NodeState, commit: nat)
    requires s'.log == s.log && s'.logOffset == s.logOffset && s'.snapshot == s.snapshot
    ensures Contiguous(FollowCommit(s', commit)) <==> Contiguous(s)
  {
  }

  lemma StoredAfter(s: NodeState, s': NodeState, c: Codec, w: WireAppend)
    requires s'.log == s.log && s'.logOffset == s.logOffset && s'.snapshot == s.snapshot
    ensures var t, t' := StoreReceived(s, c, w), StoreReceived(s', c, w);
            t'.log == t.log && t'.logOffset == t.logOffset && t'.snapshot == t.snapshot
  {
  }

  lemma SameCheckAfter(s: NodeState, req: AppendRequest)
    ensures CheckPrev(Acknowledge(s, req), req) == CheckPrev(s, req)
  {
  }

  lemma ReceivedContiguous(s: NodeState, c: Codec, w: WireAppend)
    requires Accepts(s, DecodeAppend(c, w))
    ensures Contiguous(Receive(s, c, w).0) <==> Contiguous(StoreReceived(s, c, w))
  {
    var req := DecodeAppend(c, w);
    var s1 := Acknowledge(s, req);
    SameCheckAfter(s, req);
    StoredAfter(s, s1, c, w);
    SameLogAfter(StoreReceived(s, c, w), StoreReceived(s1, c, w), w.leaderCommit);
  }

  lemma AcceptedWithin(s: NodeState, req: AppendRequest)
    requires Contiguous(s) && Accepts(s, req)
    ensures req.prevLogIndex <= s.logOffset + |s.log|
  {
  }

  /** Nothing that lies past the offset is read after something that is not, and nothing at
      or below the offset is read. */
  ghost predicate ReadsOn(s: NodeState, c: Codec, w: WireAppend) {
    var m := Below(s, w);
    (forall k :: 0 <= k < m ==> Unreadable(c, w.entries[k])) && ReadablePrefix(c, w.entries[m..])
  }

  lemma StoredGap(s: NodeState, c: Codec, w: WireAppend)
    requires Contiguous(s) && WireNumbered(w.entries, w.prevLogIndex) && w.prevLogIndex <= s.logOffset + |s.log|
    ensures Contiguous(StoreReceived(s, c, w)) <==> w.entries == [] || ReadsOn(s, c, w)
  {
    if w.entries != [] {
      StoredNumbering(s, w.prevLogIndex, DecodeAll(c, w.entries));
      ReadFrom(s, c, w);
    }
  }

  /** A request with consecutive entries, some of them unreadable, leaves a contiguous log
      contiguous exactly when it is refused, or empty, or read on without a gap. */
  lemma GapExact(s: NodeState, c: Codec, w: WireAppend)
    requires Contiguous(s) && WireNumbered(w.entries, w.prevLogIndex)
    ensures Contiguous(Receive(s, c, w).0) <==>
              !Accepts(s, DecodeAppend(c, w)) || w.entries == [] || ReadsOn(s, c, w)
  {
    if Accepts(s, DecodeAppend(c, w)) {
      ReceivedContiguous(s, c, w);
      AcceptedWithin(s, DecodeAppend(c, w));
      StoredGap(s, c, w);
    } else {
      RefusedContiguous(s, c, w);
    }
  }

  lemma RefusedContiguous(s: NodeState, c: Codec, w: WireAppend)
    requires Contiguous(s) && !Accepts(s, DecodeAppend(c, w))
    ensures Contiguous(Receive(s, c, w).0)
  {
    var req := DecodeAppend(c, w);
    SameCheckAfter(s, req);
    if req.term >= s.currentTerm {
      CutContiguous(Acknowledge(s, req), req);
    }
  }

  lemma CutContiguous(s: NodeState, req: AppendRequest)
    requires Contiguous(s) && !CheckPrev(s, req).Accept?
    ensures Contiguous(FollowLeader(s, req).0)
  {
  }

  // ----- inputs ---------------------------------------------------------------------------------------

  /** Job ids in unary. */
  function Show(id: JobId): string {
    if id == 0 then "" else "1" + Show(id - 1)
  }

  function Parse(text: string): Option<JobId> {
    if text == "" then Some(0)
    else if text[0] != '1' then None
    else
      match Parse(text[1..])
      case None => None
      case Some(id) => Some(id + 1)
  }

  lemma {:induction false} ParseShows(id: JobId)
    ensures Parse(Show(id)) == Some(id)
  {
    if id > 0 {
      ParseShows(id - 1);
      assert Show(id)[1..] == Show(id - 1);
    }
  }

  function Unary(): Codec {
    Codec(Show, Parse, 0, 0)
  }

  lemma UnaryValid()
    ensures Unary().Valid() && Unary().parse("?") == None
  {
    forall id: JobId ensures Unary().parse(Unary().show(id)) == Some(id) {
      ParseShows(id);
    }
  }

  const FIRST := LogEntry(1, 1, Noop)
  const SECOND := LogEntry(1, 2, Noop)
  const BOTH := AppendRequest(1, 1, 0, 0, [FIRST, SECOND], 0)
  const GARBLED := WireEntry(1, 2, Some(WireCancel("?")))

  /** A follower that stored what a leader sent. */
  function HoldsBoth(): NodeState {
    HandleAppendEntries(FRESH, BOTH).0
  }

  lemma HoldsBothLog()
    ensures HoldsBoth() == FRESH.(currentTerm := 1, leaderId := Some(1), log := [FIRST, SECOND])
  {
    assert [] + [FIRST, SECOND] == [FIRST, SECOND];
  }

  /** A request whose only entry is unreadable drops the entry stored in its place. */
  lemma DropsStored() returns (c: Codec, w: WireAppend)
    ensures c.Valid() && |w.entries| == 1 && Unreadable(c, w.entries[0])
    ensures HoldsBoth().log == [FIRST, SECOND] && Receive(HoldsBoth(), c, w).0.log == [FIRST]
    ensures HandleAppendEntries(HoldsBoth(), DecodeAppend(c, w)).0.log == [FIRST, SECOND]
  {
    UnaryValid();
    HoldsBothLog();
    c, w := Unary(), WireAppend(1, 1, 1, 1, [GARBLED], 0);
    assert Decode(c, GARBLED) == None;
    assert DecodeAll(c, [GARBLED]) == [] by { assert [GARBLED][1..] == []; }
    assert [FIRST, SECOND][..1] + [] == [FIRST];
  }

  /** A request whose first entry is unreadable and whose second is not leaves a gap. */
  lemma LeavesGap() returns (c: Codec, w: WireAppend)
    ensures c.Valid() && Contiguous(HoldsBoth()) && WireNumbered(w.entries, w.prevLogIndex)
    ensures !Contiguous(Receive(HoldsBoth(), c, w).0)
  {
    UnaryValid();
    HoldsBothLog();
    c, w := Unary(), WireAppend(1, 1, 1, 1, [GARBLED, THIRD], 0);
    GapAfterBoth(HoldsBoth(), c, w);
  }

  lemma GapAfterBoth(s: NodeState, c: Codec, w: WireAppend)
    requires s.currentTerm == 1 && s.log == [FIRST, SECOND] && s.logOffset == 0 && c.parse("?").None?
    requires w.term == 1 && w.prevLogIndex == 1 && w.prevLogTerm == 1 && w.entries == [GARBLED, THIRD]
    ensures Contiguous(s) && WireNumbered(w.entries, w.prevLogIndex) && !Contiguous(Receive(s, c, w).0)
  {
    NotReadOn(s, c, w);
    AcceptsThere(s, DecodeAppend(c, w));
    GapExact(s, c, w);
  }

  const THIRD := WireEntry(1, 3, None)

  lemma AcceptsThere(s: NodeState, req: AppendRequest)
    requires s.currentTerm == 1 && s.log == [FIRST, SECOND] && s.logOffset == 0
    requires req.term == 1 && req.prevLogIndex == 1 && req.prevLogTerm == 1
    ensures Accepts(s, req)
  {
    assert s.GetEntry(1) == Some(FIRST);
  }

  lemma NotReadOn(s: NodeState, c: Codec, w: WireAppend)
    requires s.logOffset == 0 && w.entries == [GARBLED, THIRD] && c.parse("?").None?
    ensures !ReadsOn(s, c, w)
  {
    assert w.entries[0..] == w.entries;
    assert Unreadable(c, w.entries[0]) && !Unreadable(c, w.entries[1]);
  }
}
