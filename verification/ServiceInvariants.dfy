/**
 The inductive invariant of the service machine. Each part is a predicate over just the fields it
 speaks of, with small lemmas about updating those fields; one lemma per event puts them together.
 */
module ServiceInvariants {
  import opened Wrappers
  import opened TokenMaps
  import opened Grant
  import opened ServiceMachine
  import opened ServiceHistory

  // ----- The lock -----

  /** The exchanges past Inserted are exactly the holder of the write lock. */
  ghost predicate LockInv(threads: map<nat, Phase>, writer: Option<nat>) {
    && (forall t | t in threads :: threads[t].Holding() <==> writer == Some(t))
    && (writer.Some? ==> writer.value in threads)
  }

  /**
   What a reader of the token map can come to see: everything except a token whose insertion still
   waits for its Save, or has failed it and waits to be rolled back.
   */
  ghost function Visible(cfg: Config, s: Sys): TokenMap {
    if s.writer.Some? && s.writer.value in s.threads then
      match s.threads[s.writer.value]
      case Inserted(_, _, _, token, _) => s.tokens - {cfg.hashToken(token)}
      case Persisted(_, token, ok) => if ok then s.tokens else s.tokens - {cfg.hashToken(token)}
      case _ => s.tokens
    else s.tokens
  }

  /** Steps of one exchange that neither take nor release the lock. */
  lemma LockKept(threads: map<nat, Phase>, writer: Option<nat>, tid: nat, after: map<nat, Phase>)
    requires LockInv(threads, writer)
    requires forall t | t in after && t != tid :: t in threads && after[t] == threads[t]
    requires forall t | t in threads && t != tid :: t in after
    requires if writer == Some(tid) then tid in after && after[tid].Holding() else tid in after ==>
             !after[tid].Holding()
    ensures LockInv(after, writer)
  {
  }

  lemma LockFree(threads: map<nat, Phase>, writer: Option<nat>, t: nat)
    requires LockInv(threads, writer) && t !in threads
    ensures writer != Some(t)
  {
  }

  lemma LockTaken(threads: map<nat, Phase>, tid: nat, p: Phase)
    requires LockInv(threads, None) && p.Holding()
    ensures LockInv(threads[tid := p], Some(tid))
  {
  }

  lemma LockReleased(threads: map<nat, Phase>, tid: nat)
    requires LockInv(threads, Some(tid))
    ensures LockInv(threads - {tid}, None)
  {
  }

  /** The writer is the only exchange waiting for a Save. */
  lemma OneInserted(threads: map<nat, Phase>, writer: Option<nat>, t: nat)
    requires LockInv(threads, writer) && t in threads
    ensures threads[t].Holding() <==> writer == Some(t)
    ensures forall u | u in threads && threads[u].Holding() :: writer == Some(u)
  {
  }

  lemma NoneInserted(threads: map<nat, Phase>)
    requires LockInv(threads, None)
    ensures forall u | u in threads :: !threads[u].Inserted?
  {
  }

  // ----- Where tokens come from -----

  /** Every entry was there before the first start, or was minted by a recorded exchange. */
  ghost predicate Traced(cfg: Config, init: TokenMap, grants: map<Hash, GrantRecord>, m: TokenMap) {
    forall k | k in m ::
      if k in grants then m[k] == TokenExpiry(cfg, grants[k].mintAt)
      else k in init && m[k] == init[k]
  }

  ghost predicate TraceInv(cfg: Config, init: TokenMap, grants: map<Hash, GrantRecord>, tokens: TokenMap,
                           store: TokenMap, purges: map<nat, PurgePhase>) {
    && Startable(cfg, init)
    && Traced(cfg, init, grants, tokens)
    && Traced(cfg, init, grants, store)
    && (forall p | p in purges && purges[p].Snapshot? :: Traced(cfg, init, grants, purges[p].copy))
  }

  /** Saving a traced map keeps exactly its unexpired entries, in either store. */
  lemma PersistTraced(cfg: Config, init: TokenMap, grants: map<Hash, GrantRecord>, m: TokenMap, now: int)
    requires Startable(cfg, init) && Traced(cfg, init, grants, m)
    ensures Persist(cfg.kind, m, now) == Live(m, now)
  {
    assert cfg.kind == Sqlite ==> Integral(m);
    PersistIntegral(cfg.kind, m, now);
  }

  /** Token maps that shrink, or are copied or saved from one another, stay traced. */
  lemma TraceKept(cfg: Config, init: TokenMap, grants: map<Hash, GrantRecord>, tokens: TokenMap, store: TokenMap,
                  purges: map<nat, PurgePhase>,
                  tokens': TokenMap, store': TokenMap, purges': map<nat, PurgePhase>)
    requires TraceInv(cfg, init, grants, tokens, store, purges)
    requires forall k | k in tokens' ::
               (k in tokens && tokens'[k] == tokens[k]) || (k in store && tokens'[k] == store[k])
    requires forall k | k in store' :: (k in store && store'[k] == store[k]) || (k in tokens && store'[k] == tokens[k])
    requires forall p | p in purges' && purges'[p].Snapshot? ::
               (p in purges && purges'[p] == purges[p]) || purges'[p].copy == tokens
    ensures TraceInv(cfg, init, grants, tokens', store', purges')
  {
  }

  lemma TraceSave(cfg: Config, init: TokenMap, grants: map<Hash, GrantRecord>, tokens: TokenMap, store: TokenMap,
                  purges: map<nat, PurgePhase>,
                  now: int, outcome: SaveOutcome, store': TokenMap)
    requires TraceInv(cfg, init, grants, tokens, store, purges)
    requires store' == StoreAfter(cfg.kind, store, tokens, now, outcome)
    ensures store' == if outcome == NotWritten then store else Live(tokens, now)
    ensures TraceInv(cfg, init, grants, tokens, store', purges)
  {
    PersistTraced(cfg, init, grants, tokens, now);
  }

  lemma TracePurgeSave(cfg: Config, init: TokenMap, grants: map<Hash, GrantRecord>, tokens: TokenMap,
                       store: TokenMap, purges: map<nat, PurgePhase>,
                       now: int, pid: nat, outcome: SaveOutcome, store': TokenMap)
    requires TraceInv(cfg, init, grants, tokens, store, purges)
    requires pid in purges && purges[pid].Snapshot?
    requires store' == StoreAfter(cfg.kind, store, purges[pid].copy, now, outcome)
    ensures store' == if outcome == NotWritten then store else Live(purges[pid].copy, now)
    ensures TraceInv(cfg, init, grants, tokens, store', purges - {pid})
  {
    PersistTraced(cfg, init, grants, purges[pid].copy, now);
  }

  lemma TraceMint(cfg: Config, init: TokenMap, grants: map<Hash, GrantRecord>, tokens: TokenMap, store: TokenMap,
                  purges: map<nat, PurgePhase>, k: Hash, g: GrantRecord)
    requires TraceInv(cfg, init, grants, tokens, store, purges) && k !in grants && k !in init
    ensures TraceInv(cfg, init, grants[k := g], tokens[k := TokenExpiry(cfg, g.mintAt)], store, purges)
    ensures k !in tokens && k !in store
    ensures forall p | p in purges && purges[p].Snapshot? :: k !in purges[p].copy
  {
  }

  // ----- What becomes of codes -----

  ghost predicate CodeInv(cfg: Config, clock: real, codes: map<string, AuthCode>, issued: map<string, IssueRecord>,
                          consumed: set<string>, purged: set<string>, lost: set<string>) {
    && issued.Keys == codes.Keys + consumed + purged + lost
    && codes.Keys !! consumed !! purged !! lost
    && (forall c | c in issued :: IssueRefusal(cfg, issued[c].areq).None? && issued[c].at <= clock)
    && (forall c | c in codes :: codes[c] == CodeFor(cfg, issued[c].areq, issued[c].at))
  }

  lemma CodeIssue(cfg: Config, clock: real, codes: map<string, AuthCode>, issued: map<string, IssueRecord>,
                  consumed: set<string>, purged: set<string>, lost: set<string>, c: string, r: IssueRecord)
    requires CodeInv(cfg, clock, codes, issued, consumed, purged, lost)
    requires c !in issued && IssueRefusal(cfg, r.areq).None? && r.at <= clock
    ensures CodeInv(cfg, clock, codes[c := CodeFor(cfg, r.areq, r.at)], issued[c := r], consumed, purged, lost)
  {
  }

  lemma CodeTake(cfg: Config, clock: real, codes: map<string, AuthCode>, issued: map<string, IssueRecord>,
                 consumed: set<string>, purged: set<string>, lost: set<string>, c: string)
    requires CodeInv(cfg, clock, codes, issued, consumed, purged, lost) && c in codes
    ensures CodeInv(cfg, clock, codes - {c}, issued, consumed + {c}, purged, lost)
    ensures c !in consumed && c in issued && codes[c] == CodeFor(cfg, issued[c].areq, issued[c].at)
            && issued[c].at <= clock
  {
  }

  lemma CodeDrop(cfg: Config, clock: real, codes: map<string, AuthCode>, issued: map<string, IssueRecord>,
                 consumed: set<string>, purged: set<string>, lost: set<string>, dropped: set<string>)
    requires CodeInv(cfg, clock, codes, issued, consumed, purged, lost) && dropped <= codes.Keys
    ensures CodeInv(cfg, clock, codes - dropped, issued, consumed, purged + dropped, lost)
    ensures CodeInv(cfg, clock, codes - dropped, issued, consumed, purged, lost + dropped)
  {
  }

  lemma CodeLater(cfg: Config, clock: real, later: real, codes: map<string, AuthCode>, issued: map<string,
                  IssueRecord>, consumed: set<string>, purged: set<string>, lost: set<string>)
    requires CodeInv(cfg, clock, codes, issued, consumed, purged, lost) && clock <= later
    ensures CodeInv(cfg, later, codes, issued, consumed, purged, lost)
  {
  }

  lemma CodeIssuedAt(cfg: Config, clock: real, codes: map<string, AuthCode>, issued: map<string, IssueRecord>,
                     consumed: set<string>, purged: set<string>, lost: set<string>, c: string)
    requires CodeInv(cfg, clock, codes, issued, consumed, purged, lost) && c in issued
    ensures issued[c].at <= clock
  {
  }

  // ----- What exchanges hold and what they were granted -----

  /** Code `c` is spent, and `data` is what it was issued with. */
  ghost predicate Spent(cfg: Config, issued: map<string, IssueRecord>, consumed: set<string>, c: string,
                        data: AuthCode) {
    c in consumed && c in issued && data == CodeFor(cfg, issued[c].areq, issued[c].at)
  }

  ghost predicate PhaseOk(cfg: Config, clock: real, issued: map<string, IssueRecord>, consumed: set<string>, p: Phase) {
    match p
    case Consumed(req, found) =>
      RequestRefusal(cfg, req).None? && (found.Some? ==> Spent(cfg, issued, consumed, req.code, found.value))
    case Checked(req, data, checkedAt) =>
      && RequestRefusal(cfg, req).None? && Spent(cfg, issued, consumed, req.code, data)
      && CodeRefusal(cfg, req, Some(data), checkedAt).None?
      && issued[req.code].at <= checkedAt <= clock
    case _ => true
  }

  ghost predicate GrantOk(cfg: Config, clock: real, issued: map<string, IssueRecord>, consumed: set<string>,
                          g: GrantRecord) {
    && RequestRefusal(cfg, g.req).None? && Spent(cfg, issued, consumed, g.req.code, g.data)
    && CodeRefusal(cfg, g.req, Some(g.data), g.checkedAt).None?
    && issued[g.req.code].at <= g.checkedAt <= g.mintAt <= clock
  }

  ghost predicate GrantInv(cfg: Config, clock: real, issued: map<string, IssueRecord>, consumed: set<string>,
                           threads: map<nat, Phase>, grants: map<Hash, GrantRecord>) {
    && (forall t | t in threads :: PhaseOk(cfg, clock, issued, consumed, threads[t]))
    && (forall k | k in grants :: GrantOk(cfg, clock, issued, consumed, grants[k]))
  }

  lemma GrantGrows(cfg: Config, clock: real, issued: map<string, IssueRecord>, consumed: set<string>,
                   threads: map<nat, Phase>, grants: map<Hash, GrantRecord>, clock': real, issued': map<string,
                   IssueRecord>, consumed': set<string>)
    requires GrantInv(cfg, clock, issued, consumed, threads, grants)
    requires clock <= clock' && consumed <= consumed'
    requires forall c | c in issued :: c in issued' && issued'[c] == issued[c]
    ensures GrantInv(cfg, clock', issued', consumed', threads, grants)
  {
  }

  lemma GrantThreads(cfg: Config, clock: real, issued: map<string, IssueRecord>, consumed: set<string>,
                     threads: map<nat, Phase>, grants: map<Hash, GrantRecord>, after: map<nat, Phase>)
    requires GrantInv(cfg, clock, issued, consumed, threads, grants)
    requires forall t | t in after :: (t in threads && after[t] == threads[t]) || PhaseOk(cfg, clock, issued,
             consumed, after[t])
    ensures GrantInv(cfg, clock, issued, consumed, after, grants)
  {
  }

  lemma GrantMint(cfg: Config, clock: real, issued: map<string, IssueRecord>, consumed: set<string>,
                  threads: map<nat, Phase>, grants: map<Hash, GrantRecord>, tid: nat, p: Phase, k: Hash, mintAt: real)
    requires GrantInv(cfg, clock, issued, consumed, threads, grants)
    requires tid in threads && threads[tid].Checked? && threads[tid].checkedAt <= mintAt <= clock && p.Inserted?
    ensures
      var q := threads[tid];
      GrantInv(cfg, clock, issued, consumed, threads[tid := p], grants[k := GrantRecord(q.req, q.data, q.checkedAt,
          mintAt)])
  {
  }

  lemma GrantPhase(cfg: Config, clock: real, issued: map<string, IssueRecord>, consumed: set<string>,
                   threads: map<nat, Phase>, grants: map<Hash, GrantRecord>, t: nat)
    requires GrantInv(cfg, clock, issued, consumed, threads, grants) && t in threads
    ensures PhaseOk(cfg, clock, issued, consumed, threads[t])
  {
  }

  /** The code an unfinished exchange has consumed and may still earn a token with. */
  ghost function Held(p: Phase): Option<string> {
    match p
    case Consumed(req, Some(_)) => Some(req.code)
    case Checked(req, _, _) => Some(req.code)
    case _ => None
  }

  /** A consumed code is in at most one pair of hands: one unfinished exchange or one grant. */
  ghost predicate OnceInv(consumed: set<string>, threads: map<nat, Phase>, grants: map<Hash, GrantRecord>) {
    && (forall t | t in threads && Held(threads[t]).Some? :: Held(threads[t]).value in consumed)
    && (forall t, u | t in threads && u in threads && t != u && Held(threads[t]).Some? ::
        Held(threads[t]) != Held(threads[u]))
    && (forall t, k | t in threads && k in grants :: Held(threads[t]) != Some(grants[k].req.code))
    && (forall k, l | k in grants && l in grants && k != l :: grants[k].req.code != grants[l].req.code)
    && (forall k | k in grants :: grants[k].req.code in consumed)
  }

  lemma OnceTake(consumed: set<string>, threads: map<nat, Phase>, grants: map<Hash, GrantRecord>, tid: nat, p: Phase,
                 c: string)
    requires OnceInv(consumed, threads, grants)
    requires tid !in threads && c !in consumed && Held(p) == Some(c)
    ensures OnceInv(consumed + {c}, threads[tid := p], grants)
  {
  }

  /** Exchanges that keep or drop what they hold change nothing. */
  lemma OnceDrop(consumed: set<string>, threads: map<nat, Phase>, grants: map<Hash, GrantRecord>, after: map<nat,
                 Phase>)
    requires OnceInv(consumed, threads, grants)
    requires forall t | t in after :: Held(after[t]).None? || (t in threads && Held(after[t]) == Held(threads[t]))
    ensures OnceInv(consumed, after, grants)
  {
  }

  lemma OnceEarn(consumed: set<string>, threads: map<nat, Phase>, grants: map<Hash, GrantRecord>, tid: nat, p: Phase,
                 k: Hash, g: GrantRecord)
    requires OnceInv(consumed, threads, grants)
    requires tid in threads && Held(threads[tid]) == Some(g.req.code) && Held(p).None? && k !in grants
    ensures OnceInv(consumed, threads[tid := p], grants[k := g])
  {
  }

  // ----- What the store and the pending copies hold -----

  /** The tokens confirmed since the first `stamp` of them. */
  ghost function Late(log: seq<Hash>, stamp: nat): set<Hash>
    requires stamp <= |log|
  {
    set i | stamp <= i < |log| :: log[i]
  }

  /**
   The unexpired part of `m` is that of the visible tokens, without those confirmed after `m` was
   copied, and with `orphan` added.
   */
  ghost predicate Mirrors(now: int, visible: TokenMap, log: seq<Hash>, stamp: nat, orphan: TokenMap, m: TokenMap) {
    && stamp <= |log|
    && Live(m, now) == Live((visible - Late(log, stamp)) + orphan, now)
  }

  ghost predicate CopiesMirror(now: int, visible: TokenMap, log: seq<Hash>, stamps: map<nat, nat>, purges: map<nat,
                               PurgePhase>) {
    forall p | p in purges && purges[p].Snapshot? ::
      p in stamps && Mirrors(now, visible, log, stamps[p], map[], purges[p].copy)
  }

  lemma MirrorsLater(now: int, later: int, visible: TokenMap, log: seq<Hash>, stamp: nat, orphan: TokenMap, m: TokenMap)
    requires Mirrors(now, visible, log, stamp, orphan, m) && now <= later
    ensures Mirrors(later, visible, log, stamp, orphan, m)
  {
    LiveAgreementPersists(m, (visible - Late(log, stamp)) + orphan, now, later);
  }

  lemma MirrorsSwept(now: int, visible: TokenMap, swept: TokenMap, log: seq<Hash>, stamp: nat, orphan: TokenMap,
                     m: TokenMap)
    requires Mirrors(now, visible, log, stamp, orphan, m) && Live(visible, now) == Live(swept, now)
    ensures Mirrors(now, swept, log, stamp, orphan, m)
  {
    var late := Late(log, stamp);
    var a, b := Live((visible - late) + orphan, now), Live((swept - late) + orphan, now);
    forall h
      ensures h in a <==> h in b
      ensures h in a ==> a[h] == b[h]
    {
      assert h in Live(visible, now) <==> h in Live(swept, now);
      assert h in Live(visible, now) ==> Live(visible, now)[h] == Live(swept, now)[h];
    }
    assert a == b;
  }

  lemma LateSnoc(log: seq<Hash>, stamp: nat, k: Hash)
    requires stamp <= |log|
    ensures Late(log + [k], stamp) == Late(log, stamp) + {k}
  {
    var all := log + [k];
    forall h
      ensures h in Late(all, stamp) <==> h in Late(log, stamp) + {k}
    {
      if h in Late(log, stamp) {
        var i :| stamp <= i < |log| && log[i] == h;
        assert all[i] == h;
      }
      assert all[|log|] == k;
    }
  }

  /** A newly confirmed token is late for everything copied before. */
  lemma MirrorsConfirm(now: int, visible: TokenMap, log: seq<Hash>, stamp: nat, m: TokenMap, k: Hash, tokens: TokenMap)
    requires Mirrors(now, visible, log, stamp, map[], m) && visible == tokens - {k}
    ensures Mirrors(now, tokens, log + [k], stamp, map[], m)
  {
    LateSnoc(log, stamp, k);
    assert tokens - Late(log + [k], stamp) == visible - Late(log, stamp);
  }

  lemma CopiesLater(now: int, later: int, visible: TokenMap, log: seq<Hash>, stamps: map<nat, nat>, purges: map<nat,
                    PurgePhase>)
    requires CopiesMirror(now, visible, log, stamps, purges) && now <= later
    ensures CopiesMirror(later, visible, log, stamps, purges)
  {
    hide Mirrors;
    forall p | p in purges && purges[p].Snapshot?
      ensures Mirrors(later, visible, log, stamps[p], map[], purges[p].copy)
    {
      MirrorsLater(now, later, visible, log, stamps[p], map[], purges[p].copy);
    }
  }

  lemma CopiesSwept(now: int, visible: TokenMap, swept: TokenMap, log: seq<Hash>, stamps: map<nat, nat>,
                    purges: map<nat, PurgePhase>)
    requires CopiesMirror(now, visible, log, stamps, purges) && Live(visible, now) == Live(swept, now)
    ensures CopiesMirror(now, swept, log, stamps, purges)
  {
    hide Mirrors;
    forall p | p in purges && purges[p].Snapshot?
      ensures Mirrors(now, swept, log, stamps[p], map[], purges[p].copy)
    {
      MirrorsSwept(now, visible, swept, log, stamps[p], map[], purges[p].copy);
    }
  }

  lemma CopiesConfirm(now: int, visible: TokenMap, log: seq<Hash>, stamps: map<nat, nat>, purges: map<nat,
                      PurgePhase>, k: Hash, tokens: TokenMap)
    requires CopiesMirror(now, visible, log, stamps, purges) && visible == tokens - {k}
    ensures CopiesMirror(now, tokens, log + [k], stamps, purges)
  {
    hide Mirrors;
    forall p | p in purges && purges[p].Snapshot?
      ensures Mirrors(now, tokens, log + [k], stamps[p], map[], purges[p].copy)
    {
      MirrorsConfirm(now, visible, log, stamps[p], purges[p].copy, k, tokens);
    }
  }

  /** Purges that advance without copying keep every copy as it was. */
  lemma CopiesKept(now: int, visible: TokenMap, log: seq<Hash>, stamps: map<nat, nat>, purges: map<nat, PurgePhase>,
                   after: map<nat, PurgePhase>)
    requires CopiesMirror(now, visible, log, stamps, purges)
    requires forall p | p in after && after[p].Snapshot? :: p in purges && after[p] == purges[p]
    ensures CopiesMirror(now, visible, log, stamps, after)
  {
    hide Mirrors;
  }

  lemma CopiesTaken(now: int, visible: TokenMap, log: seq<Hash>, stamps: map<nat, nat>, purges: map<nat, PurgePhase>,
                    pid: nat)
    requires CopiesMirror(now, visible, log, stamps, purges)
    ensures CopiesMirror(now, visible, log, stamps[pid := |log|], purges[pid := Snapshot(visible)])
  {
    assert visible + map[] == visible;
    MirrorsNow(now, visible, log, map[], visible);
    hide Mirrors;
  }

  lemma NoCopies(now: int, visible: TokenMap)
    ensures CopiesMirror(now, visible, [], map[], map[])
  {
  }

  /** A copy that is saved leaves the store mirroring what the copy mirrored. */
  lemma CopySaved(now: int, visible: TokenMap, log: seq<Hash>, stamps: map<nat, nat>, purges: map<nat, PurgePhase>,
                  pid: nat)
    requires CopiesMirror(now, visible, log, stamps, purges) && pid in purges && purges[pid].Snapshot?
    ensures pid in stamps && Mirrors(now, visible, log, stamps[pid], map[], Live(purges[pid].copy, now))
  {
    LiveLater(purges[pid].copy, now, now);
  }

  lemma MirrorsNow(now: int, visible: TokenMap, log: seq<Hash>, orphan: TokenMap, m: TokenMap)
    requires Live(m, now) == Live(visible + orphan, now)
    ensures Mirrors(now, visible, log, |log|, orphan, m)
  {
    assert visible - Late(log, |log|) == visible;
  }

  lemma MirrorsPlain(now: int, visible: TokenMap, log: seq<Hash>, m: TokenMap)
    requires m == Live(visible, now)
    ensures Mirrors(now, visible, log, |log|, map[], m)
  {
    assert visible + map[] == visible;
    LiveLater(visible, now, now);
    MirrorsNow(now, visible, log, map[], m);
  }

  lemma MirrorsTorn(now: int, visible: TokenMap, log: seq<Hash>, tokens: TokenMap, k: Hash, m: TokenMap)
    requires visible == tokens - {k} && m == Live(tokens, now)
    ensures Mirrors(now, visible, log, |log|, if k in tokens then map[k := tokens[k]] else map[], m)
  {
    var orphan := if k in tokens then map[k := tokens[k]] else map[];
    assert visible + orphan == tokens;
    LiveLater(tokens, now, now);
    MirrorsNow(now, visible, log, orphan, m);
  }

  /** The clock readings of a purge are in the past. */
  ghost predicate PurgeInv(clock: real, purges: map<nat, PurgePhase>) {
    forall p | p in purges ::
      && (purges[p].Started? ==> purges[p].now <= Unix(clock) && purges[p].at <= clock)
      && (purges[p].CodesSwept? ==> purges[p].now <= Unix(clock))
  }

  // ----- Tokens whose Save failed -----

  ghost predicate FailInv(cfg: Config, visible: TokenMap, store: TokenMap, threads: map<nat, Phase>, purges: map<nat,
                          PurgePhase>, grants: map<Hash, GrantRecord>, orphan: TokenMap, failed: set<Hash>,
                          torn: set<Hash>) {
    && failed + torn <= grants.Keys
    && visible.Keys !! (failed + torn)
    && store.Keys !! failed
    && store.Keys * torn <= orphan.Keys
    && (forall p | p in purges && purges[p].Snapshot? :: purges[p].copy.Keys !! (failed + torn))
    && (forall t | t in threads && threads[t].Inserted? ::
          var k := cfg.hashToken(threads[t].token);
          && k !in failed + torn && k !in store && k in grants
          && (forall p | p in purges && purges[p].Snapshot? :: k !in purges[p].copy))
    && (forall t | t in threads && threads[t].Persisted? && !threads[t].ok ::
        cfg.hashToken(threads[t].token) in failed + torn)
  }

  lemma FailThreads(cfg: Config, visible: TokenMap, store: TokenMap, threads: map<nat, Phase>, purges: map<nat,
                    PurgePhase>, grants: map<Hash, GrantRecord>, orphan: TokenMap, failed: set<Hash>,
                    torn: set<Hash>, after: map<nat, Phase>)
    requires FailInv(cfg, visible, store, threads, purges, grants, orphan, failed, torn)
    requires forall t | t in after && after[t].Holding() :: t in threads && after[t] == threads[t]
    ensures FailInv(cfg, visible, store, after, purges, grants, orphan, failed, torn)
  {
  }

  lemma FailPurges(cfg: Config, visible: TokenMap, store: TokenMap, threads: map<nat, Phase>, purges: map<nat,
                   PurgePhase>, grants: map<Hash, GrantRecord>, orphan: TokenMap, failed: set<Hash>, torn: set<Hash>,
                   after: map<nat, PurgePhase>)
    requires FailInv(cfg, visible, store, threads, purges, grants, orphan, failed, torn)
    requires forall p | p in after && after[p].Snapshot? :: p in purges && after[p] == purges[p]
    ensures FailInv(cfg, visible, store, threads, after, grants, orphan, failed, torn)
  {
  }

  lemma FailInsert(cfg: Config, visible: TokenMap, store: TokenMap, threads: map<nat, Phase>, purges: map<nat,
                   PurgePhase>, grants: map<Hash, GrantRecord>, orphan: TokenMap, failed: set<Hash>, torn: set<Hash>,
                   tid: nat, p: Phase, g: GrantRecord)
    requires FailInv(cfg, visible, store, threads, purges, grants, orphan, failed, torn)
    requires p.Inserted? && cfg.hashToken(p.token) !in grants && cfg.hashToken(p.token) !in store
    requires forall u | u in purges && purges[u].Snapshot? :: cfg.hashToken(p.token) !in purges[u].copy
    ensures FailInv(cfg, visible, store, threads[tid := p], purges, grants[cfg.hashToken(p.token) := g], orphan,
            failed, torn)
  {
  }

  lemma FailSaved(cfg: Config, visible: TokenMap, store: TokenMap, threads: map<nat, Phase>, purges: map<nat,
                  PurgePhase>, grants: map<Hash, GrantRecord>, orphan: TokenMap, failed: set<Hash>, torn: set<Hash>,
                  tid: nat, after: map<nat, Phase>, tokens: TokenMap, store': TokenMap)
    requires FailInv(cfg, visible, store, threads, purges, grants, orphan, failed, torn)
    requires tid in threads && threads[tid].Inserted? && visible == tokens - {cfg.hashToken(threads[tid].token)}
    requires forall t | t in after && t != tid :: !after[t].Holding()
    requires tid in after && after[tid].Persisted? && after[tid].token == threads[tid].token
    requires after[tid].ok && store'.Keys <= tokens.Keys
    ensures FailInv(cfg, tokens, store', after, purges, grants, map[], failed, torn)
  {
  }

  lemma FailNotWritten(cfg: Config, visible: TokenMap, store: TokenMap, threads: map<nat, Phase>, purges: map<nat,
                       PurgePhase>, grants: map<Hash, GrantRecord>, orphan: TokenMap, failed: set<Hash>,
                       torn: set<Hash>,
                       tid: nat, after: map<nat, Phase>, tokens: TokenMap)
    requires FailInv(cfg, visible, store, threads, purges, grants, orphan, failed, torn)
    requires tid in threads && threads[tid].Inserted? && visible == tokens - {cfg.hashToken(threads[tid].token)}
    requires forall t | t in after && t != tid :: !after[t].Holding()
    requires tid in after && after[tid].Persisted? && after[tid].token == threads[tid].token
    ensures FailInv(cfg, visible, store, after, purges, grants, orphan, failed + {cfg.hashToken(threads[tid].token)},
            torn)
  {
  }

  lemma FailTorn(cfg: Config, visible: TokenMap, store: TokenMap, threads: map<nat, Phase>, purges: map<nat,
                 PurgePhase>, grants: map<Hash, GrantRecord>, orphan: TokenMap, failed: set<Hash>, torn: set<Hash>,
                 tid: nat, after: map<nat, Phase>, tokens: TokenMap, store': TokenMap, orphan': TokenMap)
    requires FailInv(cfg, visible, store, threads, purges, grants, orphan, failed, torn)
    requires tid in threads && threads[tid].Inserted? && visible == tokens - {cfg.hashToken(threads[tid].token)}
    requires forall t | t in after && t != tid :: !after[t].Holding()
    requires tid in after && after[tid].Persisted? && after[tid].token == threads[tid].token
    requires store'.Keys <= tokens.Keys
    requires cfg.hashToken(threads[tid].token) in tokens ==> cfg.hashToken(threads[tid].token) in orphan'
    ensures FailInv(cfg, visible, store', after, purges, grants, orphan', failed,
            torn + {cfg.hashToken(threads[tid].token)})
  {
  }

  lemma FailSwept(cfg: Config, visible: TokenMap, store: TokenMap, threads: map<nat, Phase>, purges: map<nat,
                  PurgePhase>, grants: map<Hash, GrantRecord>, orphan: TokenMap, failed: set<Hash>, torn: set<Hash>,
                  swept: TokenMap)
    requires FailInv(cfg, visible, store, threads, purges, grants, orphan, failed, torn)
    requires swept.Keys <= visible.Keys
    ensures FailInv(cfg, swept, store, threads, purges, grants, orphan, failed, torn)
  {
  }

  lemma FailSnapshot(cfg: Config, visible: TokenMap, store: TokenMap, threads: map<nat, Phase>, purges: map<nat,
                     PurgePhase>, grants: map<Hash, GrantRecord>, orphan: TokenMap, failed: set<Hash>,
                     torn: set<Hash>, pid: nat)
    requires FailInv(cfg, visible, store, threads, purges, grants, orphan, failed, torn)
    requires forall t | t in threads :: !threads[t].Inserted?
    ensures FailInv(cfg, visible, store, threads, purges[pid := Snapshot(visible)], grants, orphan, failed, torn)
  {
  }

  lemma FailPurgeSaved(cfg: Config, visible: TokenMap, store: TokenMap, threads: map<nat, Phase>, purges: map<nat,
                       PurgePhase>, grants: map<Hash, GrantRecord>, orphan: TokenMap, failed: set<Hash>,
                       torn: set<Hash>, pid: nat, store': TokenMap)
    requires FailInv(cfg, visible, store, threads, purges, grants, orphan, failed, torn)
    requires pid in purges && purges[pid].Snapshot? && store'.Keys <= purges[pid].copy.Keys
    ensures FailInv(cfg, visible, store', threads, purges - {pid}, grants, map[], failed, torn)
  {
  }

  lemma FailRestart(cfg: Config, visible: TokenMap, store: TokenMap, threads: map<nat, Phase>, purges: map<nat,
                    PurgePhase>, grants: map<Hash, GrantRecord>, orphan: TokenMap, failed: set<Hash>,
                    torn: set<Hash>, loaded: TokenMap)
    requires FailInv(cfg, visible, store, threads, purges, grants, orphan, failed, torn)
    requires loaded.Keys <= store.Keys
    ensures FailInv(cfg, loaded, store, map[], map[], grants, map[], failed, {})
  {
  }

  // ----- All together -----

  ghost predicate Inv(cfg: Config, w: World) {
    var s, h := w.sys, w.hist;
    && LockInv(s.threads, s.writer)
    && TraceInv(cfg, h.init, h.grants, s.tokens, s.store, s.purges)
    && CodeInv(cfg, s.clock, s.codes, h.issued, h.consumed, h.purged, h.lost)
    && GrantInv(cfg, s.clock, h.issued, h.consumed, s.threads, h.grants)
    && OnceInv(h.consumed, s.threads, h.grants)
    && PurgeInv(s.clock, s.purges)
    && Mirrors(Unix(s.clock), Visible(cfg, s), h.log, h.storeStamp, h.orphan, s.store)
    && CopiesMirror(Unix(s.clock), Visible(cfg, s), h.log, h.stamps, s.purges)
    && FailInv(cfg, Visible(cfg, s), s.store, s.threads, s.purges, h.grants, h.orphan, h.failed, h.torn)
  }

  lemma InvStart(cfg: Config, clock: real, store: TokenMap)
    requires Startable(cfg, store)
    ensures Inv(cfg, Start(clock, store))
  {
    var s, now := Boot(clock, store), Unix(clock);
    LiveLater(store, now, now);
    assert s.tokens + map[] == s.tokens;
    MirrorsNow(now, s.tokens, [], map[], store);
    NoCopies(now, s.tokens);
    hide Mirrors, CopiesMirror;
  }

  lemma InvTick(cfg: Config, w: World, e: Event)
    requires e.Tick? && Inv(cfg, w) && Allowed(cfg, w, e)
    ensures Inv(cfg, Step(cfg, w, e))
  {
    hide LockInv, TraceInv, CodeInv, GrantInv, OnceInv, Mirrors, CopiesMirror, FailInv;
    var s, h, n := w.sys, w.hist, Next(cfg, w.sys, e);
    var now, later := Unix(s.clock), Unix(n.clock);
    CodeLater(cfg, s.clock, n.clock, s.codes, h.issued, h.consumed, h.purged, h.lost);
    GrantGrows(cfg, s.clock, h.issued, h.consumed, s.threads, h.grants, n.clock, h.issued, h.consumed);
    MirrorsLater(now, later, Visible(cfg, s), h.log, h.storeStamp, h.orphan, s.store);
    CopiesLater(now, later, Visible(cfg, s), h.log, h.stamps, s.purges);
  }

  lemma InvIssue(cfg: Config, w: World, e: Event)
    requires e.Issue? && Inv(cfg, w) && Allowed(cfg, w, e)
    ensures Inv(cfg, Step(cfg, w, e))
  {
    hide LockInv, TraceInv, CodeInv, GrantInv, OnceInv, PurgeInv, Mirrors, CopiesMirror, FailInv;
    if IssueRefusal(cfg, e.areq).None? {
      var s, h := w.sys, w.hist;
      var r := IssueRecord(e.areq, e.readAt);
      CodeIssue(cfg, s.clock, s.codes, h.issued, h.consumed, h.purged, h.lost, e.code, r);
      GrantGrows(cfg, s.clock, h.issued, h.consumed, s.threads, h.grants, s.clock, h.issued[e.code := r], h.consumed);
    }
  }

  /** Exchange steps outside the lock leave the token side as it is. */
  lemma VisibleOutsideLock(cfg: Config, s: Sys, n: Sys, tid: nat)
    requires LockInv(s.threads, s.writer)
    requires n.tokens == s.tokens && n.writer == s.writer && s.writer != Some(tid)
    requires forall t | t in n.threads && t != tid :: t in s.threads && n.threads[t] == s.threads[t]
    requires forall t | t in s.threads && t != tid :: t in n.threads
    ensures Visible(cfg, n) == Visible(cfg, s)
  {
  }

  lemma InvBegin(cfg: Config, w: World, e: Event)
    requires e.Begin? && Inv(cfg, w) && Allowed(cfg, w, e)
    ensures Inv(cfg, Step(cfg, w, e))
  {
    if RequestRefusal(cfg, e.req).None? {
      InvBeginAccepted(cfg, w, e);
    }
  }

  lemma InvBeginAccepted(cfg: Config, w: World, e: Event)
    requires e.Begin? && Inv(cfg, w) && Allowed(cfg, w, e)
    requires RequestRefusal(cfg, e.req).None?
    ensures Inv(cfg, Step(cfg, w, e))
  {
    hide LockInv, TraceInv, CodeInv, GrantInv, OnceInv, PurgeInv, Mirrors, CopiesMirror, FailInv, Visible,
         RequestRefusal, CodeFor;
    var s, h, tid, c := w.sys, w.hist, e.tid, e.req.code;
    var found := if c in s.codes then Some(s.codes[c]) else None;
    var p := Consumed(e.req, found);
    var after, consumed := s.threads[tid := p], if c in s.codes then h.consumed + {c} else h.consumed;
    LockFree(s.threads, s.writer, tid);
    LockKept(s.threads, s.writer, tid, after);
    VisibleOutsideLock(cfg, s, AfterBegin(cfg, s, tid, e.req), tid);
    FailThreads(cfg, Visible(cfg, s), s.store, s.threads, s.purges, h.grants, h.orphan, h.failed, h.torn, after);
    GrantGrows(cfg, s.clock, h.issued, h.consumed, s.threads, h.grants, s.clock, h.issued, consumed);
    if c in s.codes {
      CodeTake(cfg, s.clock, s.codes, h.issued, h.consumed, h.purged, h.lost, c);
      OnceTake(h.consumed, s.threads, h.grants, tid, p, c);
    } else {
      OnceDrop(h.consumed, s.threads, h.grants, after);
    }
    GrantThreads(cfg, s.clock, h.issued, consumed, s.threads, h.grants, after);
  }

  lemma UnknownCodeRefused(cfg: Config, req: TokenRequest, now: real)
    ensures CodeRefusal(cfg, req, None, now).Some?
  {
  }

  lemma InvCheck(cfg: Config, w: World, e: Event)
    requires e.Check? && Inv(cfg, w) && Allowed(cfg, w, e)
    ensures Inv(cfg, Step(cfg, w, e))
  {
    hide LockInv, TraceInv, CodeInv, GrantInv, OnceInv, PurgeInv, Mirrors, CopiesMirror, FailInv, Visible,
         RequestRefusal, CodeRefusal, CodeFor;
    var s, h, tid, p := w.sys, w.hist, e.tid, w.sys.threads[e.tid];
    OneInserted(s.threads, s.writer, tid);
    GrantPhase(cfg, s.clock, h.issued, h.consumed, s.threads, h.grants, tid);
    UnknownCodeRefused(cfg, p.req, s.clock);
    var n := AfterCheck(cfg, s, tid);
    if p.found.Some? {
      CodeIssuedAt(cfg, s.clock, s.codes, h.issued, h.consumed, h.purged, h.lost, p.req.code);
    }
    LockKept(s.threads, s.writer, tid, n.threads);
    VisibleOutsideLock(cfg, s, n, tid);
    FailThreads(cfg, Visible(cfg, s), s.store, s.threads, s.purges, h.grants, h.orphan, h.failed, h.torn, n.threads);
    OnceDrop(h.consumed, s.threads, h.grants, n.threads);
    GrantThreads(cfg, s.clock, h.issued, h.consumed, s.threads, h.grants, n.threads);
  }

  /** A token under insertion is not visible yet. */
  lemma VisibleInsert(cfg: Config, s: Sys, tid: nat, token: string, mintAt: real)
    requires tid in s.threads && s.threads[tid].Checked? && s.writer.None?
    requires cfg.hashToken(token) !in s.tokens
    ensures Visible(cfg, s) == s.tokens
    ensures Visible(cfg, AfterInsert(cfg, s, tid, token, mintAt)) == s.tokens
  {
  }

  lemma InvInsert(cfg: Config, w: World, e: Event)
    requires e.Insert? && Inv(cfg, w) && Allowed(cfg, w, e)
    ensures Inv(cfg, Step(cfg, w, e))
  {
    hide LockInv, TraceInv, CodeInv, GrantInv, OnceInv, PurgeInv, Mirrors, CopiesMirror, FailInv, TokenExpiry, Visible;
    var s, h := w.sys, w.hist;
    var k, p := cfg.hashToken(e.token), s.threads[e.tid];
    var q := Inserted(p.req, p.data, p.checkedAt, e.token, e.mintAt);
    var g := GrantRecord(p.req, p.data, p.checkedAt, e.mintAt);
    LockTaken(s.threads, e.tid, q);
    TraceMint(cfg, h.init, h.grants, s.tokens, s.store, s.purges, k, g);
    GrantMint(cfg, s.clock, h.issued, h.consumed, s.threads, h.grants, e.tid, q, k, e.mintAt);
    OnceEarn(h.consumed, s.threads, h.grants, e.tid, q, k, g);
    VisibleInsert(cfg, s, e.tid, e.token, e.mintAt);
    FailInsert(cfg, s.tokens, s.store, s.threads, s.purges, h.grants, h.orphan, h.failed, h.torn, e.tid, q, g);
  }

  lemma VisibleSave(cfg: Config, s: Sys, tid: nat, outcome: SaveOutcome)
    requires tid in s.threads && s.threads[tid].Inserted? && s.writer == Some(tid)
    ensures Visible(cfg, s) == s.tokens - {cfg.hashToken(s.threads[tid].token)}
    ensures Visible(cfg, AfterSave(cfg, s, tid, outcome)) == if outcome == Saved then s.tokens else Visible(cfg, s)
  {
  }

  lemma InvSave(cfg: Config, w: World, e: Event)
    requires e.Save? && Inv(cfg, w) && Allowed(cfg, w, e)
    ensures Inv(cfg, Step(cfg, w, e))
  {
    hide LockInv, TraceInv, CodeInv, GrantInv, OnceInv, PurgeInv, Mirrors, CopiesMirror, FailInv, Persist, Visible;
    var s, h, tid := w.sys, w.hist, e.tid;
    var k, now, visible := cfg.hashToken(s.threads[tid].token), Unix(s.clock), Visible(cfg, s);
    var after := s.threads[tid := Persisted(s.threads[tid].req, s.threads[tid].token, e.outcome == Saved)];
    var store := StoreAfter(cfg.kind, s.store, s.tokens, now, e.outcome);
    OneInserted(s.threads, s.writer, tid);
    VisibleSave(cfg, s, tid, e.outcome);
    LockKept(s.threads, s.writer, tid, after);
    OnceDrop(h.consumed, s.threads, h.grants, after);
    GrantThreads(cfg, s.clock, h.issued, h.consumed, s.threads, h.grants, after);
    TraceSave(cfg, h.init, h.grants, s.tokens, s.store, s.purges, now, e.outcome, store);
    StoreSideAfterSave(cfg, s, h, tid, e.outcome, after);
  }

  /** Exchange `tid` is about to save; `after` are the exchanges once it has. */
  ghost predicate Saving(cfg: Config, s: Sys, h: Hist, tid: nat, outcome: SaveOutcome, after: map<nat, Phase>) {
    && tid in s.threads && s.threads[tid].Inserted? && s.writer == Some(tid)
    && (forall t | t in after && t != tid :: !after[t].Holding())
    && tid in after && after[tid].Persisted? && after[tid].token == s.threads[tid].token
    && (after[tid].ok <==> outcome == Saved)
    && TraceInv(cfg, h.init, h.grants, s.tokens, s.store, s.purges)
    && Mirrors(Unix(s.clock), Visible(cfg, s), h.log, h.storeStamp, h.orphan, s.store)
    && CopiesMirror(Unix(s.clock), Visible(cfg, s), h.log, h.stamps, s.purges)
    && FailInv(cfg, Visible(cfg, s), s.store, s.threads, s.purges, h.grants, h.orphan, h.failed, h.torn)
  }

  /** The parts of the invariant about the store and the failed tokens, after the Save. */
  ghost predicate StoreSide(cfg: Config, s: Sys, h: Hist, tid: nat, outcome: SaveOutcome, after: map<nat, Phase>)
    requires tid in s.threads && s.threads[tid].Inserted?
  {
    var now, n := Unix(s.clock), HistAfterSave(cfg, s, h, tid, outcome);
    var visible := if outcome == Saved then s.tokens else Visible(cfg, s);
    var store := StoreAfter(cfg.kind, s.store, s.tokens, now, outcome);
    && Mirrors(now, visible, n.log, n.storeStamp, n.orphan, store)
    && CopiesMirror(now, visible, n.log, h.stamps, s.purges)
    && FailInv(cfg, visible, store, after, s.purges, h.grants, n.orphan, n.failed, n.torn)
  }

  lemma StoreSideAfterSaved(cfg: Config, s: Sys, h: Hist, tid: nat, outcome: SaveOutcome, after: map<nat, Phase>)
    requires outcome == Saved
    requires Saving(cfg, s, h, tid, outcome, after)
    ensures StoreSide(cfg, s, h, tid, outcome, after)
  {
    hide TraceInv, Mirrors, CopiesMirror, FailInv, Persist, Visible;
    var k, now, visible := cfg.hashToken(s.threads[tid].token), Unix(s.clock), Visible(cfg, s);
    var store := StoreAfter(cfg.kind, s.store, s.tokens, now, outcome);
    VisibleSave(cfg, s, tid, outcome);
    TraceSave(cfg, h.init, h.grants, s.tokens, s.store, s.purges, now, outcome, store);
    MirrorsPlain(now, s.tokens, h.log + [k], store);
    CopiesConfirm(now, visible, h.log, h.stamps, s.purges, k, s.tokens);
    FailSaved(cfg, visible, s.store, s.threads, s.purges, h.grants, h.orphan, h.failed, h.torn, tid, after, s.tokens,
        store);
  }

  lemma StoreSideAfterTorn(cfg: Config, s: Sys, h: Hist, tid: nat, outcome: SaveOutcome, after: map<nat, Phase>)
    requires outcome == WrittenButFailed
    requires Saving(cfg, s, h, tid, outcome, after)
    ensures StoreSide(cfg, s, h, tid, outcome, after)
  {
    hide TraceInv, Mirrors, CopiesMirror, FailInv, Persist, Visible;
    var k, now, visible := cfg.hashToken(s.threads[tid].token), Unix(s.clock), Visible(cfg, s);
    var store := StoreAfter(cfg.kind, s.store, s.tokens, now, outcome);
    VisibleSave(cfg, s, tid, outcome);
    TraceSave(cfg, h.init, h.grants, s.tokens, s.store, s.purges, now, outcome, store);
    var orphan := if k in s.tokens then map[k := s.tokens[k]] else map[];
    MirrorsTorn(now, visible, h.log, s.tokens, k, store);
    FailTorn(cfg, visible, s.store, s.threads, s.purges, h.grants, h.orphan, h.failed, h.torn, tid, after, s.tokens,
        store, orphan);
  }

  /** What a Save does to the store side of the invariant, outcome by outcome. */
  lemma StoreSideAfterSave(cfg: Config, s: Sys, h: Hist, tid: nat, outcome: SaveOutcome, after: map<nat, Phase>)
    requires Saving(cfg, s, h, tid, outcome, after)
    ensures StoreSide(cfg, s, h, tid, outcome, after)
  {
    hide TraceInv, Mirrors, CopiesMirror, FailInv, Persist, Visible;
    match outcome
    case Saved => StoreSideAfterSaved(cfg, s, h, tid, outcome, after);
    case WrittenButFailed => StoreSideAfterTorn(cfg, s, h, tid, outcome, after);
    case NotWritten =>
      VisibleSave(cfg, s, tid, outcome);
      FailNotWritten(cfg, Visible(cfg, s), s.store, s.threads, s.purges, h.grants, h.orphan, h.failed, h.torn, tid,
          after, s.tokens);
  }

  /** Rolling back a token that was never visible changes nothing a reader can see. */
  lemma VisibleUnlock(cfg: Config, s: Sys, tid: nat)
    requires tid in s.threads && s.threads[tid].Persisted? && s.writer == Some(tid)
    ensures Visible(cfg, AfterUnlock(cfg, s, tid)) == Visible(cfg, s)
  {
  }

  lemma InvUnlock(cfg: Config, w: World, e: Event)
    requires e.Unlock? && Inv(cfg, w) && Allowed(cfg, w, e)
    ensures Inv(cfg, Step(cfg, w, e))
  {
    hide LockInv, TraceInv, CodeInv, GrantInv, OnceInv, PurgeInv, Mirrors, CopiesMirror, FailInv, Visible;
    var s, h, tid := w.sys, w.hist, e.tid;
    OneInserted(s.threads, s.writer, tid);
    var n := AfterUnlock(cfg, s, tid);
    VisibleUnlock(cfg, s, tid);
    LockReleased(s.threads, tid);
    OnceDrop(h.consumed, s.threads, h.grants, n.threads);
    GrantThreads(cfg, s.clock, h.issued, h.consumed, s.threads, h.grants, n.threads);
    TraceKept(cfg, h.init, h.grants, s.tokens, s.store, s.purges, n.tokens, s.store, s.purges);
    FailThreads(cfg, Visible(cfg, s), s.store, s.threads, s.purges, h.grants, h.orphan, h.failed, h.torn, n.threads);
  }

  lemma InvPurgeBegins(cfg: Config, w: World, e: Event)
    requires (e.PurgeStart? || e.PurgeCodes?) && Inv(cfg, w) && Allowed(cfg, w, e)
    ensures Inv(cfg, Step(cfg, w, e))
  {
    hide LockInv, TraceInv, CodeInv, GrantInv, OnceInv, Mirrors, CopiesMirror, FailInv;
    var s, h, v := w.sys, w.hist, Step(cfg, w, e);
    if e.PurgeCodes? {
      CodeDrop(cfg, s.clock, s.codes, h.issued, h.consumed, h.purged, h.lost, e.removed);
    }
    TraceKept(cfg, h.init, h.grants, s.tokens, s.store, s.purges, s.tokens, s.store, v.sys.purges);
    CopiesKept(Unix(s.clock), Visible(cfg, s), h.log, h.stamps, s.purges, v.sys.purges);
    FailPurges(cfg, Visible(cfg, s), s.store, s.threads, s.purges, h.grants, h.orphan, h.failed, h.torn, v.sys.purges);
  }

  lemma InvPurgeTokens(cfg: Config, w: World, e: Event)
    requires e.PurgeTokens? && Inv(cfg, w) && Allowed(cfg, w, e)
    ensures Inv(cfg, Step(cfg, w, e))
  {
    hide LockInv, TraceInv, CodeInv, GrantInv, OnceInv, Mirrors, CopiesMirror, FailInv;
    var s, h, v := w.sys, w.hist, Step(cfg, w, e);
    var now, swept := Unix(s.clock), v.sys.tokens;
    assert Visible(cfg, s) == s.tokens && Visible(cfg, v.sys) == swept;
    assert Live(s.tokens, now) == Live(swept, now);
    MirrorsSwept(now, s.tokens, swept, h.log, h.storeStamp, h.orphan, s.store);
    CopiesSwept(now, s.tokens, swept, h.log, h.stamps, s.purges);
    CopiesKept(now, swept, h.log, h.stamps, s.purges, v.sys.purges);
    TraceKept(cfg, h.init, h.grants, s.tokens, s.store, s.purges, swept, s.store, v.sys.purges);
    FailSwept(cfg, s.tokens, s.store, s.threads, s.purges, h.grants, h.orphan, h.failed, h.torn, swept);
    FailPurges(cfg, swept, s.store, s.threads, s.purges, h.grants, h.orphan, h.failed, h.torn, v.sys.purges);
  }

  lemma InvPurgeSnapshot(cfg: Config, w: World, e: Event)
    requires e.PurgeSnapshot? && Inv(cfg, w) && Allowed(cfg, w, e)
    ensures Inv(cfg, Step(cfg, w, e))
  {
    hide LockInv, TraceInv, CodeInv, GrantInv, OnceInv, Mirrors, CopiesMirror, FailInv;
    var s, h, v := w.sys, w.hist, Step(cfg, w, e);
    NoneInserted(s.threads);
    TraceKept(cfg, h.init, h.grants, s.tokens, s.store, s.purges, s.tokens, s.store, v.sys.purges);
    CopiesTaken(Unix(s.clock), s.tokens, h.log, h.stamps, s.purges, e.pid);
    FailSnapshot(cfg, s.tokens, s.store, s.threads, s.purges, h.grants, h.orphan, h.failed, h.torn, e.pid);
  }

  lemma InvPurgeSave(cfg: Config, w: World, e: Event)
    requires e.PurgeSave? && Inv(cfg, w) && Allowed(cfg, w, e)
    ensures Inv(cfg, Step(cfg, w, e))
  {
    hide LockInv, TraceInv, CodeInv, GrantInv, OnceInv, Mirrors, CopiesMirror, FailInv, Persist;
    var s, h, v := w.sys, w.hist, Step(cfg, w, e);
    var now, visible := Unix(s.clock), Visible(cfg, s);
    TracePurgeSave(cfg, h.init, h.grants, s.tokens, s.store, s.purges, now, e.pid, e.outcome, v.sys.store);
    CopySaved(now, visible, h.log, h.stamps, s.purges, e.pid);
    CopiesKept(now, visible, h.log, h.stamps, s.purges, v.sys.purges);
    if e.outcome == NotWritten {
      FailPurges(cfg, visible, s.store, s.threads, s.purges, h.grants, h.orphan, h.failed, h.torn, v.sys.purges);
    } else {
      FailPurgeSaved(cfg, visible, s.store, s.threads, s.purges, h.grants, h.orphan, h.failed, h.torn, e.pid,
          v.sys.store);
    }
  }

  lemma NothingRunning(clock: real)
    ensures LockInv(map[], None) && PurgeInv(clock, map[])
  {
  }

  lemma InvRestart(cfg: Config, w: World, e: Event)
    requires e.Restart? && Inv(cfg, w) && Allowed(cfg, w, e)
    ensures Inv(cfg, Step(cfg, w, e))
  {
    hide TraceInv, CodeInv, GrantInv, OnceInv, PurgeInv, Mirrors, CopiesMirror, FailInv;
    hide LockInv;
    NothingRunning(w.sys.clock);
    var s, h, now := w.sys, w.hist, Unix(w.sys.clock);
    var loaded := Live(s.store, now);
    LiveLater(s.store, now, now);
    assert loaded + map[] == loaded;
    MirrorsNow(now, loaded, [], map[], s.store);
    NoCopies(now, loaded);
    CodeDrop(cfg, s.clock, s.codes, h.issued, h.consumed, h.purged, h.lost, s.codes.Keys);
    assert s.codes - s.codes.Keys == map[];
    GrantThreads(cfg, s.clock, h.issued, h.consumed, s.threads, h.grants, map[]);
    OnceDrop(h.consumed, s.threads, h.grants, map[]);
    TraceKept(cfg, h.init, h.grants, s.tokens, s.store, s.purges, loaded, s.store, map[]);
    FailRestart(cfg, Visible(cfg, s), s.store, s.threads, s.purges, h.grants, h.orphan, h.failed, h.torn, loaded);
  }

  lemma InvStep(cfg: Config, w: World, e: Event)
    requires Inv(cfg, w) && Allowed(cfg, w, e)
    ensures Inv(cfg, Step(cfg, w, e))
  {
    hide LockInv, TraceInv, CodeInv, GrantInv, OnceInv, PurgeInv, Mirrors, CopiesMirror, FailInv, Visible;
    match e
    case Tick(_) => InvTick(cfg, w, e);
    case Issue(_, _, _) => InvIssue(cfg, w, e);
    case Begin(_, _) => InvBegin(cfg, w, e);
    case Check(_) => InvCheck(cfg, w, e);
    case Insert(_, _, _) => InvInsert(cfg, w, e);
    case Save(_, _) => InvSave(cfg, w, e);
    case Unlock(_) => InvUnlock(cfg, w, e);
    case Validate(_) =>
    case PurgeStart(_) => InvPurgeBegins(cfg, w, e);
    case PurgeCodes(_, _) => InvPurgeBegins(cfg, w, e);
    case PurgeTokens(_) => InvPurgeTokens(cfg, w, e);
    case PurgeSnapshot(_) => InvPurgeSnapshot(cfg, w, e);
    case PurgeSave(_, _) => InvPurgeSave(cfg, w, e);
    case Restart => InvRestart(cfg, w, e);
  }

  lemma {:induction false} InvRun(cfg: Config, w: World, es: seq<Event>)
    requires Inv(cfg, w) && Exec(cfg, w, es).Some?
    ensures Inv(cfg, Exec(cfg, w, es).value)
  {
    hide Inv;
    if |es| > 0 {
      InvRun(cfg, w, es[..|es| - 1]);
      InvStep(cfg, Exec(cfg, w, es[..|es| - 1]).value, es[|es| - 1]);
    }
  }

  /** The invariant holds in every reachable world. */
  lemma ReachableInv(cfg: Config, w: World)
    requires Reachable(cfg, w)
    ensures Inv(cfg, w)
  {
    var clock: real, store: TokenMap, es: seq<Event> :|
      Startable(cfg, store) && Exec(cfg, Start(clock, store), es) == Some(w);
    hide Inv;
    InvStart(cfg, clock, store);
    InvRun(cfg, Start(clock, store), es);
  }
}
