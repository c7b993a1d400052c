/**
 The per-site database cache of db/sitedb.go under concurrent use. Any number of threads interleave,
 one step at a time, through `Open` with its double check, `Create`, `Close`, `Delete`, `CloseAll` and
 `Get`; the RWMutex, the cache map and the two connection pools of every handle are shared state.
 */
module SiteCache {
  import opened Wrappers

  type Tid = int
  type Site = int
  type HandleId = nat

  /** A handle owns a read pool and a write pool; it is unclosed as long as either is open. */
  datatype Handle = Handle(site: Site, reader: bool, writer: bool) {
    predicate Unclosed() { reader || writer }
    predicate Usable() { reader && writer }
  }

  datatype Op = Open(site: Site) | Create(site: Site) | Close(site: Site) | Delete(site: Site) | CloseAll | Get(site: Site)

  /** Where a thread is. From `Holding` on it holds the write lock. */
  datatype Pc =
    | Idle
    | WantRead(op: Op)
    | Reading(op: Op)                                // holds the read lock
    | WantWrite(op: Op)
    | Holding(op: Op)                                // at the start of the write section
    | Missed(op: Op)                                 // the site is not in the cache: openSiteDB begins
    | Opening(op: Op, h: HandleId)                   // the read pool is open
    | Migrating(op: Op, h: HandleId)                 // both pools are open, migrations are running
    | Abandoning(op: Op, h: HandleId)                // openSiteDB failed and closes what it opened
    | Closing(op: Op, todo: set<Site>)               // sites whose handle is still to be closed
    | HalfClosed(op: Op, todo: set<Site>, at: Site)  // the write pool of `at` is closed, the read pool not yet

  /** What callers see: handles given out, and sites dropped from the cache. */
  datatype Event = Got(t: Tid, site: Site, h: HandleId) | Evicted(site: Site) | EvictedAll

  datatype Sys = Sys(
    dbs: map<Site, HandleId>,
    handles: seq<Handle>,
    readers: set<Tid>,
    writer: Option<Tid>,
    pcs: map<Tid, Pc>,
    log: seq<Event>)
  {
    function At(t: Tid): Pc { if t in pcs then pcs[t] else Idle }

    function Goto(t: Tid, pc: Pc): Sys { this.(pcs := pcs[t := pc]) }

    function Logged(e: Event): Sys { this.(log := log + [e]) }

    function Unlock(t: Tid): Sys { this.(writer := None, pcs := pcs[t := Idle]) }
  }

  const INIT: Sys := Sys(map[], [], {}, None, map[], [])

  predicate Locked(pc: Pc) { !pc.Idle? && !pc.WantRead? && !pc.Reading? && !pc.WantWrite? }

  datatype Action =
    | Call(op: Op)
    | RLock
    | Lookup
    | Lock
    | Check
    | OpenReadPool(ok: bool)  // ok is false when nothing could be opened
    | OpenWritePool
    | Fail                    // a failed ping, open or migration
    | Finish
    | AbandonWritePool
    | AbandonReadPool
    | GiveUp
    | CloseWritePool(at: Site)
    | CloseReadPool
    | Evict

  predicate WantsRead(op: Op) { op.Open? || op.Get? }

  /** Which operation a thread can be carrying out where it is. */
  predicate PcFits(pc: Pc) {
    match pc
    case Idle => true
    case WantRead(op) => WantsRead(op)
    case Reading(op) => WantsRead(op)
    case WantWrite(op) => !op.Get?
    case Holding(op) => !op.Get?
    case Missed(op) => op.Open? || op.Create?
    case Opening(op, _) => op.Open? || op.Create?
    case Migrating(op, _) => op.Open? || op.Create?
    case Abandoning(op, _) => op.Open? || op.Create?
    case Closing(op, _) => op.Close? || op.Delete? || op.CloseAll?
    case HalfClosed(op, _, _) => op.Close? || op.Delete? || op.CloseAll?
  }

  /** When an action of thread `t` may happen. */
  predicate Enabled(s: Sys, t: Tid, a: Action) {
    var pc := s.At(t);
    PcFits(pc) &&
    match a
    case Call(_) => pc.Idle?
    case RLock => pc.WantRead? && s.writer.None?
    case Lookup => pc.Reading?
    case Lock => pc.WantWrite? && s.writer.None? && s.readers == {}
    case Check => pc.Holding?
    case OpenReadPool(_) => pc.Missed?
    case OpenWritePool => pc.Opening? && pc.h < |s.handles|
    case Fail => pc.Opening? || pc.Migrating?
    case Finish => pc.Migrating?
    case AbandonWritePool => pc.Abandoning? && pc.h < |s.handles| && s.handles[pc.h].writer
    case AbandonReadPool => pc.Abandoning? && pc.h < |s.handles| && s.handles[pc.h].reader
    case GiveUp => pc.Abandoning? && pc.h < |s.handles| && !s.handles[pc.h].Unclosed()
    case CloseWritePool(at) => pc.Closing? && at in pc.todo && at in s.dbs && s.dbs[at] < |s.handles|
    case CloseReadPool => pc.HalfClosed? && pc.at in s.dbs && s.dbs[pc.at] < |s.handles|
    case Evict => pc.Closing? && pc.todo == {}
  }

  /** One step of thread `t`. */
  function Step(s: Sys, t: Tid, a: Action): Sys
    requires Enabled(s, t, a)
  {
    var pc := s.At(t);
    match a
    case Call(op) => s.Goto(t, if WantsRead(op) then WantRead(op) else WantWrite(op))
    case RLock => s.(readers := s.readers + {t}).Goto(t, Reading(pc.op))
    case Lookup =>
      var next := s.(readers := s.readers - {t});
      if pc.op.site in s.dbs then next.Goto(t, Idle).Logged(Got(t, pc.op.site, s.dbs[pc.op.site]))
      else if pc.op.Open? then next.Goto(t, WantWrite(pc.op))
      else next.Goto(t, Idle)
    case Lock => s.(writer := Some(t)).Goto(t, Holding(pc.op))
    case Check =>
      (match pc.op
       case CloseAll => s.Goto(t, Closing(pc.op, s.dbs.Keys))
       case Close(site) => if site in s.dbs then s.Goto(t, Closing(pc.op, {site})) else s.Unlock(t)
       case Delete(site) => if site in s.dbs then s.Goto(t, Closing(pc.op, {site})) else s.Unlock(t)
       case _ =>
         if pc.op.site in s.dbs then s.Unlock(t).Logged(Got(t, pc.op.site, s.dbs[pc.op.site]))
         else s.Goto(t, Missed(pc.op)))
    case OpenReadPool(ok) =>
      if ok then
        s.(handles := s.handles + [Handle(pc.op.site, true, false)]).Goto(t, Opening(pc.op, |s.handles|))
      else s.Unlock(t)
    case OpenWritePool =>
      s.(handles := s.handles[pc.h := s.handles[pc.h].(writer := true)]).Goto(t, Migrating(pc.op, pc.h))
    case Fail => s.Goto(t, Abandoning(pc.op, pc.h))
    case Finish => s.(dbs := s.dbs[pc.op.site := pc.h]).Unlock(t).Logged(Got(t, pc.op.site, pc.h))
    case AbandonWritePool => s.(handles := s.handles[pc.h := s.handles[pc.h].(writer := false)])
    case AbandonReadPool => s.(handles := s.handles[pc.h := s.handles[pc.h].(reader := false)])
    case GiveUp => s.Unlock(t)
    case CloseWritePool(at) =>
      var h := s.dbs[at];
      s.(handles := s.handles[h := s.handles[h].(writer := false)]).Goto(t, HalfClosed(pc.op, pc.todo - {at}, at))
    case CloseReadPool =>
      var h := s.dbs[pc.at];
      s.(handles := s.handles[h := s.handles[h].(reader := false)]).Goto(t, Closing(pc.op, pc.todo))
    case Evict =>
      if pc.op.CloseAll? then s.(dbs := map[]).Unlock(t).Logged(EvictedAll)
      else s.(dbs := s.dbs - {pc.op.site}).Unlock(t).Logged(Evicted(pc.op.site))
  }

  datatype Move = Move(t: Tid, a: Action)

  predicate IsRun(s: Sys, moves: seq<Move>)
    decreases |moves|
  {
    moves == [] || (Enabled(s, moves[0].t, moves[0].a) && IsRun(Step(s, moves[0].t, moves[0].a), moves[1..]))
  }

  function After(s: Sys, moves: seq<Move>): Sys
    requires IsRun(s, moves)
    decreases |moves|
  {
    if moves == [] then s else After(Step(s, moves[0].t, moves[0].a), moves[1..])
  }

  // The invariant.

  /** The lock: one writer or any number of readers, and threads know which they are. */
  ghost predicate LockInv(s: Sys) {
    && (forall t :: Locked(s.At(t)) <==> s.writer == Some(t))
    && (forall t :: t in s.readers <==> s.At(t).Reading?)
    && (s.writer.Some? ==> s.readers == {})
  }

  /** The write section the lock holder is in, or `Idle`. */
  function Section(s: Sys): Pc {
    match s.writer
    case Some(t) => s.At(t)
    case None => Idle
  }

  /** The handle the lock holder is opening. */
  function Fresh(pc: Pc): Option<HandleId> {
    match pc
    case Opening(_, h) => Some(h)
    case Migrating(_, h) => Some(h)
    case Abandoning(_, h) => Some(h)
    case _ => None
  }

  /** The sites whose cached handle the lock holder has begun to close. */
  function BeingClosed(s: Sys, pc: Pc): set<Site> {
    match pc
    case Closing(op, todo) => (if op.CloseAll? then s.dbs.Keys else {op.site}) - todo
    case HalfClosed(op, todo, _) => (if op.CloseAll? then s.dbs.Keys else {op.site}) - todo
    case _ => {}
  }

  /** A cached handle belongs to its site, and is open unless the lock holder is closing it. */
  ghost predicate CacheInv(s: Sys) {
    var pc := Section(s);
    && (forall k :: k in s.dbs ==> s.dbs[k] < |s.handles| && s.handles[s.dbs[k]].site == k)
    && (forall k :: k in s.dbs && k !in BeingClosed(s, pc) ==> s.handles[s.dbs[k]].Usable())
    && (forall k :: k in s.dbs && k in BeingClosed(s, pc) ==>
          s.handles[s.dbs[k]] == Handle(k, pc.HalfClosed? && pc.at == k, false))
  }

  /** The lock holder's own place is consistent with the cache and with the handle it is opening. */
  ghost predicate SectionInv(s: Sys) {
    var pc := Section(s);
    PcFits(pc) &&
    match pc
    case Missed(op) => op.site !in s.dbs
    case Opening(op, h) => op.site !in s.dbs && h < |s.handles| && s.handles[h] == Handle(op.site, true, false)
    case Migrating(op, h) => op.site !in s.dbs && h < |s.handles| && s.handles[h] == Handle(op.site, true, true)
    case Abandoning(op, h) => op.site !in s.dbs && h < |s.handles| && s.handles[h].site == op.site
    case Closing(op, todo) => todo <= s.dbs.Keys && (op.CloseAll? || (todo <= {op.site} && op.site in s.dbs))
    case HalfClosed(op, todo, at) =>
      && todo <= s.dbs.Keys && at in s.dbs && at !in todo
      && (op.CloseAll? || (todo == {} && at == op.site))
    case _ => true
  }

  /** An unclosed handle is in the cache, or is the one being opened. */
  ghost predicate HandleInv(s: Sys) {
    forall h :: 0 <= h < |s.handles| && s.handles[h].Unclosed() ==>
                  || (s.handles[h].site in s.dbs && s.dbs[s.handles[h].site] == h)
                  || Fresh(Section(s)) == Some(h)
  }

  /** The handle last given out for a site, unless the site was dropped from the cache since. */
  function LastGot(log: seq<Event>, site: Site): Option<HandleId> {
    if log == [] then None else
      match log[|log| - 1]
      case Got(_, k, h) => if k == site then Some(h) else LastGot(log[..|log| - 1], site)
      case Evicted(k) => if k == site then None else LastGot(log[..|log| - 1], site)
      case EvictedAll => None
  }

  ghost predicate LogInv(s: Sys) {
    && (forall k :: LastGot(s.log, k) == if k in s.dbs then Some(s.dbs[k]) else None)
    && (forall j :: 0 <= j < |s.log| && s.log[j].Got? ==>
          LastGot(s.log[..j], s.log[j].site).None? || LastGot(s.log[..j], s.log[j].site) == Some(s.log[j].h))
  }

  ghost predicate Inv(s: Sys) {
    && LockInv(s)
    && (forall t :: PcFits(s.At(t)))
    && CacheInv(s) && SectionInv(s) && HandleInv(s) && LogInv(s)
  }

  lemma InitInv()
    ensures Inv(INIT)
  {
  }

  // Every step keeps the invariant.

  /** A step moves one thread; whether the lock invariant holds then depends on that thread alone. */
  lemma OneThreadMoved(s: Sys, s': Sys, t: Tid)
    requires LockInv(s)
    requires forall u :: u != t ==> s'.At(u) == s.At(u) && (u in s'.readers <==> u in s.readers)
    requires s'.writer == s.writer || s'.writer == Some(t) || s'.writer == None
    requires s.writer.Some? && s.writer != Some(t) ==> s'.writer == s.writer
    requires Locked(s'.At(t)) <==> s'.writer == Some(t)
    requires t in s'.readers <==> s'.At(t).Reading?
    requires s'.writer.Some? ==> s'.readers == {}
    ensures LockInv(s')
  {
  }

  lemma StepLock(s: Sys, t: Tid, a: Action)
    requires LockInv(s) && Enabled(s, t, a)
    ensures LockInv(Step(s, t, a)) && PcFits(Step(s, t, a).At(t))
    ensures forall u :: u != t ==> Step(s, t, a).At(u) == s.At(u)
  {
    assert Locked(s.At(t)) <==> s.writer == Some(t);
    assert t in s.readers <==> s.At(t).Reading?;
    assert s.writer.Some? ==> s.readers == {};
    OneThreadMoved(s, Step(s, t, a), t);
    hide LockInv;
  }

  /** Only the lock holder changes the cache and the handles. */
  lemma Outside(s: Sys, t: Tid, a: Action)
    requires Inv(s) && Enabled(s, t, a) && s.writer != Some(t)
    ensures var s' := Step(s, t, a);
            && s'.dbs == s.dbs && s'.handles == s.handles
            && (a.Lock? || (s'.writer == s.writer && Section(s') == Section(s)))
  {
  }

  /** The thread that acts in a write section is the lock holder, and its place is the section. */
  lemma Holder(s: Sys, t: Tid)
    requires LockInv(s) && Locked(s.At(t))
    ensures s.writer == Some(t) && Section(s) == s.At(t)
  {
  }

  lemma StepCache(s: Sys, t: Tid, a: Action)
    requires Inv(s) && Enabled(s, t, a)
    ensures CacheInv(Step(s, t, a)) && SectionInv(Step(s, t, a))
  {
    if s.writer != Some(t) {
      StepLock(s, t, a);
      hide LockInv, HandleInv, LogInv;
      Outside(s, t, a);
    } else {
      hide CacheInv, SectionInv, HandleInv, LogInv;
      match a
      case Check => CheckCache(s, t);
      case Finish => FinishCache(s, t);
      case Evict => EvictCache(s, t);
      case CloseWritePool(at) => ClosePoolCache(s, t, a);
      case CloseReadPool => ClosePoolCache(s, t, a);
      case _ => OpenCache(s, t, a);
    }
  }

  /** The cache is as it was, and no handle of it is being closed. */
  lemma SameCache(s: Sys, s': Sys)
    requires CacheInv(s) && s'.dbs == s.dbs && s'.handles == s.handles
    requires BeingClosed(s, Section(s)) == {} == BeingClosed(s', Section(s'))
    ensures CacheInv(s')
  {
    hide Section, BeingClosed;
  }

  /** Where the check of a write section leads. */
  lemma CheckLeads(s: Sys, t: Tid)
    requires LockInv(s) && Enabled(s, t, Check)
    ensures var s', op := Step(s, t, Check), s.At(t).op;
            && s'.dbs == s.dbs && s'.handles == s.handles
            && Section(s') == (match op
                               case CloseAll => Closing(op, s.dbs.Keys)
                               case Close(site) => if site in s.dbs then Closing(op, {site}) else Idle
                               case Delete(site) => if site in s.dbs then Closing(op, {site}) else Idle
                               case _ => if op.site in s.dbs then Idle else Missed(op))
  {
    Holder(s, t);
  }

  lemma CheckCache(s: Sys, t: Tid)
    requires Inv(s) && Enabled(s, t, Check)
    ensures CacheInv(Step(s, t, Check)) && SectionInv(Step(s, t, Check))
  {
    Holder(s, t);
    CheckLeads(s, t);
    var s', op := Step(s, t, Check), s.At(t).op;
    assert PcFits(s.At(t));
    hide LockInv, HandleInv, LogInv, CacheInv, Locked, LastGot, Section, Step;
    assert BeingClosed(s, s.At(t)) == {};
    assert BeingClosed(s', Section(s')) == {};
    SameCache(s, s');
  }

  lemma FinishCache(s: Sys, t: Tid)
    requires Inv(s) && Enabled(s, t, Finish)
    ensures CacheInv(Step(s, t, Finish)) && SectionInv(Step(s, t, Finish))
  {
    Holder(s, t);
    StepLock(s, t, Finish);
    hide LockInv, HandleInv, LogInv, PcFits, Locked, LastGot;
  }

  lemma EvictCache(s: Sys, t: Tid)
    requires Inv(s) && Enabled(s, t, Evict)
    ensures CacheInv(Step(s, t, Evict)) && SectionInv(Step(s, t, Evict))
  {
    Holder(s, t);
    StepLock(s, t, Evict);
    hide LockInv, HandleInv, LogInv, PcFits, Locked, LastGot;
  }

  lemma ClosePoolCache(s: Sys, t: Tid, a: Action)
    requires Inv(s) && Enabled(s, t, a) && (a.CloseWritePool? || a.CloseReadPool?)
    ensures CacheInv(Step(s, t, a)) && SectionInv(Step(s, t, a))
  {
    Holder(s, t);
    StepLock(s, t, a);
    hide LockInv, HandleInv, LogInv, PcFits, Locked, LastGot;
  }

  /** Opening, and giving an opening up, leave the cache alone. */
  lemma OpenCache(s: Sys, t: Tid, a: Action)
    requires Inv(s) && Enabled(s, t, a) && s.writer == Some(t)
    requires !a.Check? && !a.Finish? && !a.Evict? && !a.CloseWritePool? && !a.CloseReadPool?
    ensures CacheInv(Step(s, t, a)) && SectionInv(Step(s, t, a))
  {
    assert Locked(s.At(t));
    Holder(s, t);
    StepLock(s, t, a);
    hide LockInv, HandleInv, LogInv, PcFits, Locked, LastGot;
  }

  lemma StepHandles(s: Sys, t: Tid, a: Action)
    requires Inv(s) && Enabled(s, t, a)
    ensures HandleInv(Step(s, t, a))
  {
    if s.writer != Some(t) {
      Outside(s, t, a);
      hide LockInv, CacheInv, SectionInv, LogInv;
    } else {
      assert Locked(s.At(t));
      if a.CloseWritePool? || a.CloseReadPool? || a.Evict? {
        HandlesClosed(s, t, a);
      } else {
        HandlesOpened(s, t, a);
      }
    }
  }

  lemma HandlesClosed(s: Sys, t: Tid, a: Action)
    requires Inv(s) && Enabled(s, t, a) && Locked(s.At(t)) && (a.CloseWritePool? || a.CloseReadPool? || a.Evict?)
    ensures HandleInv(Step(s, t, a))
  {
    Holder(s, t);
    hide LockInv, LogInv, Locked, PcFits;
  }

  predicate Pools(a: Action) { a.OpenReadPool? || a.OpenWritePool? || a.AbandonWritePool? || a.AbandonReadPool? }

  lemma HandlesOpened(s: Sys, t: Tid, a: Action)
    requires Inv(s) && Enabled(s, t, a) && Locked(s.At(t)) && !a.CloseWritePool? && !a.CloseReadPool? && !a.Evict?
    ensures HandleInv(Step(s, t, a))
  {
    Holder(s, t);
    hide HandleInv, SectionInv, CacheInv, LockInv, LogInv, Locked, Enabled;
    if Pools(a) {
      PoolWritten(s, t, a);
    } else {
      PoolsKept(s, t, a);
    }
  }

  lemma PoolsKept(s: Sys, t: Tid, a: Action)
    requires HandleInv(s) && SectionInv(s) && Enabled(s, t, a) && s.writer == Some(t) && Locked(s.At(t))
    requires !Pools(a) && !a.CloseWritePool? && !a.CloseReadPool? && !a.Evict?
    ensures HandleInv(Step(s, t, a))
  {
    hide PcFits;
    match a
    case Check =>
    case Fail =>
    case Finish =>
    case _ =>
  }

  lemma PoolWritten(s: Sys, t: Tid, a: Action)
    requires HandleInv(s) && SectionInv(s) && Enabled(s, t, a) && Pools(a) && s.writer == Some(t)
    ensures HandleInv(Step(s, t, a))
  {
    hide PcFits;
    match a
    case OpenReadPool(_) =>
    case OpenWritePool =>
    case AbandonWritePool =>
    case _ =>
  }

  /** What a step writes to the log. */
  function Logs(s: Sys, t: Tid, a: Action): Option<Event>
    requires Enabled(s, t, a)
  {
    var op := if a.Call? then a.op else s.At(t).op;
    match a
    case Lookup => if op.site in s.dbs then Some(Got(t, op.site, s.dbs[op.site])) else None
    case Check =>
      if (op.Open? || op.Create?) && op.site in s.dbs then Some(Got(t, op.site, s.dbs[op.site])) else None
    case Finish => Some(Got(t, op.site, s.At(t).h))
    case Evict => Some(if op.CloseAll? then EvictedAll else Evicted(op.site))
    case _ => None
  }

  /** The cache after a step is the cache before it, changed as the logged event says. */
  lemma StepLogs(s: Sys, t: Tid, a: Action)
    requires Inv(s) && Enabled(s, t, a)
    ensures var s' := Step(s, t, a);
            match Logs(s, t, a)
            case None => s'.log == s.log && s'.dbs == s.dbs
            case Some(Got(u, k, h)) =>
              s'.log == s.log + [Got(u, k, h)] && (k in s.dbs ==> s.dbs[k] == h) && s'.dbs == s.dbs[k := h]
            case Some(Evicted(k)) => s'.log == s.log + [Evicted(k)] && s'.dbs == s.dbs - {k}
            case Some(EvictedAll) => s'.log == s.log + [EvictedAll] && s'.dbs == map[]
  {
    if Locked(s.At(t)) {
      Holder(s, t);
    }
    hide LockInv, CacheInv, HandleInv, LogInv;
  }

  lemma LogGrows(s: Sys, s': Sys, e: Event)
    requires LogInv(s) && s'.log == s.log + [e]
    requires match e
             case Got(_, k, h) => (k in s.dbs ==> s.dbs[k] == h) && s'.dbs == s.dbs[k := h]
             case Evicted(k) => s'.dbs == s.dbs - {k}
             case EvictedAll => s'.dbs == map[]
    ensures LogInv(s')
  {
    assert s'.log[..|s.log|] == s.log;
    forall j | 0 <= j < |s'.log| && s'.log[j].Got?
      ensures LastGot(s'.log[..j], s'.log[j].site).None? || LastGot(s'.log[..j], s'.log[j].site) == Some(s'.log[j].h)
    {
      if j < |s.log| {
        assert s'.log[..j] == s.log[..j] && s'.log[j] == s.log[j];
      }
    }
  }

  lemma StepLog(s: Sys, t: Tid, a: Action)
    requires Inv(s) && Enabled(s, t, a)
    ensures LogInv(Step(s, t, a))
  {
    StepLogs(s, t, a);
    hide Step, Logs;
    match Logs(s, t, a)
    case None =>
    case Some(e) => LogGrows(s, Step(s, t, a), e);
  }

  lemma StepInv(s: Sys, t: Tid, a: Action)
    requires Inv(s) && Enabled(s, t, a)
    ensures Inv(Step(s, t, a))
  {
    StepLock(s, t, a);
    StepCache(s, t, a);
    StepHandles(s, t, a);
    StepLog(s, t, a);
  }

  lemma {:induction false} RunInv(s: Sys, moves: seq<Move>)
    requires Inv(s) && IsRun(s, moves)
    ensures Inv(After(s, moves))
    decreases |moves|
  {
    if moves != [] {
      StepInv(s, moves[0].t, moves[0].a);
      RunInv(Step(s, moves[0].t, moves[0].a), moves[1..]);
    }
  }

  // The main results, for every interleaving from the start.

  /** No site ever has two unclosed handles. */
  lemma OneUnclosedHandle(moves: seq<Move>, h: HandleId, k: HandleId)
    requires IsRun(INIT, moves)
    requires var s := After(INIT, moves);
             h < |s.handles| && k < |s.handles| && s.handles[h].Unclosed() && s.handles[k].Unclosed()
             && s.handles[h].site == s.handles[k].site
    ensures h == k
  {
    InitInv();
    RunInv(INIT, moves);
  }

  /** Whenever nobody is inside a write section, the cache holds exactly the unclosed handles, all usable. */
  lemma CacheIsExact(moves: seq<Move>)
    requires IsRun(INIT, moves) && After(INIT, moves).writer.None?
    ensures var s := After(INIT, moves);
            && (forall k :: k in s.dbs ==> s.dbs[k] < |s.handles| && s.handles[s.dbs[k]] == Handle(k, true, true))
            && (forall h :: 0 <= h < |s.handles| && s.handles[h].Unclosed() ==>
                  s.handles[h].site in s.dbs && s.dbs[s.handles[h].site] == h)
  {
    InitInv();
    RunInv(INIT, moves);
  }

  /** A thread is only ever given a handle of the site it asked for, and one that is open at that moment. */
  lemma GotIsUsable(moves: seq<Move>, t: Tid, a: Action, site: Site, h: HandleId)
    requires IsRun(INIT, moves) && Enabled(After(INIT, moves), t, a)
    requires var s := After(INIT, moves); Step(s, t, a).log == s.log + [Got(t, site, h)]
    ensures var s' := Step(After(INIT, moves), t, a);
            && h < |s'.handles| && s'.handles[h] == Handle(site, true, true)
            && After(INIT, moves).At(t).op in {Open(site), Create(site), Get(site)}
  {
    InitInv();
    RunInv(INIT, moves);
    hide Inv, Step, IsRun;
    GotStep(After(INIT, moves), t, a, site, h);
  }

  lemma GotStep(s: Sys, t: Tid, a: Action, site: Site, h: HandleId)
    requires Inv(s) && Enabled(s, t, a) && Step(s, t, a).log == s.log + [Got(t, site, h)]
    ensures var s' := Step(s, t, a);
            h < |s'.handles| && s'.handles[h] == Handle(site, true, true) && s.At(t).op in {Open(site), Create(site), Get(site)}
  {
    assert (s.log + [Got(t, site, h)])[|s.log|] == Got(t, site, h);
    if Locked(s.At(t)) {
      Holder(s, t);
    }
    hide LockInv, LogInv, HandleInv, LastGot;
  }

  predicate Drops(e: Event, site: Site) { e == Evicted(site) || e.EvictedAll? }

  lemma {:induction false} NoDropBetween(log: seq<Event>, i: nat, j: nat, site: Site)
    requires i < j <= |log| && log[i].Got? && log[i].site == site
    requires forall m :: i < m < j ==> !Drops(log[m], site)
    requires forall m :: 0 <= m < |log| && log[m].Got? ==>
               LastGot(log[..m], log[m].site).None? || LastGot(log[..m], log[m].site) == Some(log[m].h)
    ensures LastGot(log[..j], site) == Some(log[i].h)
    decreases j
  {
    assert log[..j][..j - 1] == log[..j - 1] && log[..j][j - 1] == log[j - 1];
    if i < j - 1 {
      NoDropBetween(log, i, j - 1, site);
    }
  }

  /** Two threads that get a handle for a site, with no closing of it in between, get the same handle. */
  lemma SameHandle(moves: seq<Move>, i: nat, j: nat)
    requires IsRun(INIT, moves)
    requires var log := After(INIT, moves).log;
             && i < j < |log| && log[i].Got? && log[j].Got? && log[i].site == log[j].site
             && forall m :: i < m < j ==> !Drops(log[m], log[i].site)
    ensures After(INIT, moves).log[i].h == After(INIT, moves).log[j].h
  {
    InitInv();
    RunInv(INIT, moves);
    var log := After(INIT, moves).log;
    NoDropBetween(log, i, j, log[i].site);
  }

  /** What a thread inside the lock can do next. */
  function NextInside(s: Sys, t: Tid): Action {
    match s.At(t)
    case Reading(_) => Lookup
    case Holding(_) => Check
    case Missed(_) => OpenReadPool(false)
    case Opening(_, _) => OpenWritePool
    case Migrating(_, _) => Fail
    case Abandoning(_, h) =>
      if h < |s.handles| && s.handles[h].writer then AbandonWritePool
      else if h < |s.handles| && s.handles[h].reader then AbandonReadPool
      else GiveUp
    case HalfClosed(_, _, _) => CloseReadPool
    case _ => Evict
  }

  /** No deadlock: as long as some call is unfinished, some thread in a call can take a step. */
  lemma SomeoneMoves(moves: seq<Move>, t: Tid) returns (m: Move)
    requires IsRun(INIT, moves) && !After(INIT, moves).At(t).Idle?
    ensures Enabled(After(INIT, moves), m.t, m.a) && !m.a.Call?
  {
    InitInv();
    RunInv(INIT, moves);
    var s := After(INIT, moves);
    if s.writer.Some? {
      var u := s.writer.value;
      var pc := s.At(u);
      if pc.Closing? && exists at :: at in pc.todo {
        var at :| at in pc.todo;
        m := Move(u, CloseWritePool(at));
      } else {
        m := Move(u, NextInside(s, u));
      }
    } else if exists u :: u in s.readers {
      var u :| u in s.readers;
      m := Move(u, Lookup);
    } else {
      m := Move(t, if s.At(t).WantRead? then RLock else Lock);
    }
  }

  // What the operations do when nobody is in the way.

  ghost predicate Leads(s: Sys, run: seq<Move>, s': Sys) { IsRun(s, run) && After(s, run) == s' }

  lemma NoMove(s: Sys)
    ensures Leads(s, [], s)
  {
  }

  lemma FirstMove(s: Sys, t: Tid, a: Action, rest: seq<Move>, s': Sys)
    requires Enabled(s, t, a) && Leads(Step(s, t, a), rest, s')
    ensures Leads(s, [Move(t, a)] + rest, s')
  {
    assert ([Move(t, a)] + rest)[1..] == rest;
  }

  function Moves(t: Tid, actions: seq<Action>): seq<Move> {
    seq(|actions|, i requires 0 <= i < |actions| => Move(t, actions[i]))
  }

  lemma FirstAction(s: Sys, t: Tid, a: Action, actions: seq<Action>, s': Sys)
    requires Enabled(s, t, a) && Leads(Step(s, t, a), Moves(t, actions), s')
    ensures Leads(s, Moves(t, [a] + actions), s')
  {
    FirstMove(s, t, a, Moves(t, actions), s');
    assert Moves(t, [a] + actions) == [Move(t, a)] + Moves(t, actions);
  }

  /** Nobody holds the lock, and `t` is in no call. */
  predicate Free(s: Sys, t: Tid) { s.writer.None? && s.readers == {} && s.At(t).Idle? }

  function Done(s: Sys, t: Tid): Sys { s.(pcs := s.pcs[t := Idle]) }

  /** `t` holds the write lock and is at `pc`; the handles are these. */
  function In(s: Sys, t: Tid, pc: Pc, handles: seq<Handle>): Sys {
    s.(writer := Some(t), pcs := s.pcs[t := pc], handles := handles)
  }

  /** The way into the write section: `Open` looks under the read lock first. */
  function Entering(op: Op): seq<Action> {
    if op.Open? then [Call(op), RLock, Lookup, Lock, Check] else [Call(op), Lock, Check]
  }

  lemma LookedUp(s: Sys, t: Tid, op: Op)
    requires Free(s, t) && !WantsRead(op)
    ensures var w, h := s.(pcs := s.pcs[t := WantWrite(op)]), In(s, t, Holding(op), s.handles);
            && Enabled(s, t, Call(op)) && Step(s, t, Call(op)) == w && Enabled(w, t, Lock) && Step(w, t, Lock) == h
            && Enabled(h, t, Check)
            && (op.Create? && op.site in s.dbs ==>
                  Step(h, t, Check) == Done(s, t).(log := s.log + [Got(t, op.site, s.dbs[op.site])]))
            && ((op.Close? || op.Delete?) && op.site !in s.dbs ==> Step(h, t, Check) == Done(s, t))
  {
  }

  lemma ReadUp(s: Sys, t: Tid, op: Op)
    requires Free(s, t) && WantsRead(op)
    ensures var r, l := s.(pcs := s.pcs[t := WantRead(op)]), s.(readers := {t}, pcs := s.pcs[t := Reading(op)]);
            && Enabled(s, t, Call(op)) && Step(s, t, Call(op)) == r && Enabled(r, t, RLock) && Step(r, t, RLock) == l
            && Enabled(l, t, Lookup)
            && (op.site in s.dbs ==> Step(l, t, Lookup) == Done(s, t).(log := s.log + [Got(t, op.site, s.dbs[op.site])]))
            && (op.Get? && op.site !in s.dbs ==> Step(l, t, Lookup) == Done(s, t))
            && (op.Open? && op.site !in s.dbs ==> Step(l, t, Lookup) == s.(pcs := s.pcs[t := WantWrite(op)]))
  {
  }

  lemma Locks(s: Sys, t: Tid, op: Op)
    requires Free(s, t) && !op.Get?
    ensures var w := s.(pcs := s.pcs[t := WantWrite(op)]);
            Enabled(w, t, Lock) && Step(w, t, Lock) == In(s, t, Holding(op), s.handles)
  {
  }

  /** Where the write section begins for a thread that came in. */
  lemma Enters(s: Sys, t: Tid, op: Op, actions: seq<Action>, s': Sys)
    requires Free(s, t) && !op.Get? && (op.Open? ==> op.site !in s.dbs)
    requires Enabled(In(s, t, Holding(op), s.handles), t, Check)
    requires Leads(Step(In(s, t, Holding(op), s.handles), t, Check), Moves(t, actions), s')
    ensures Leads(s, Moves(t, Entering(op) + actions), s')
  {
    hide Leads, Step, Enabled, In, Free;
    var h, w := In(s, t, Holding(op), s.handles), s.(pcs := s.pcs[t := WantWrite(op)]);
    FirstAction(h, t, Check, actions, s');
    Locks(s, t, op);
    FirstAction(w, t, Lock, [Check] + actions, s');
    if op.Open? {
      var r, l := s.(pcs := s.pcs[t := WantRead(op)]), s.(readers := {t}, pcs := s.pcs[t := Reading(op)]);
      ReadUp(s, t, op);
      FirstAction(l, t, Lookup, [Lock] + ([Check] + actions), s');
      FirstAction(r, t, RLock, [Lookup] + ([Lock] + ([Check] + actions)), s');
      FirstAction(s, t, Call(op), [RLock] + ([Lookup] + ([Lock] + ([Check] + actions))), s');
      assert Entering(op) + actions == [Call(op)] + ([RLock] + ([Lookup] + ([Lock] + ([Check] + actions))));
    } else {
      LookedUp(s, t, op);
      FirstAction(s, t, Call(op), [Lock] + ([Check] + actions), s');
      assert Entering(op) + actions == [Call(op)] + ([Lock] + ([Check] + actions));
    }
  }

  /** One step inside the write section. */
  lemma Inside(s: Sys, t: Tid, a: Action, actions: seq<Action>, next: Sys, s': Sys)
    requires Enabled(s, t, a) && Step(s, t, a) == next && Leads(next, Moves(t, actions), s')
    ensures Leads(s, Moves(t, [a] + actions), s')
  {
    FirstAction(s, t, a, actions, s');
  }

  lemma LastInside(s: Sys, t: Tid, a: Action, s': Sys)
    requires Enabled(s, t, a) && Step(s, t, a) == s'
    ensures Leads(s, Moves(t, [a]), s')
  {
    NoMove(s');
    assert Moves(t, []) == [] && [a] + [] == [a];
    FirstAction(s, t, a, [], s');
  }

  /** A site that is not cached: the write section goes on to open it. */
  lemma FoundMissing(s: Sys, t: Tid, op: Op)
    requires Free(s, t) && (op.Open? || op.Create?) && op.site !in s.dbs
    ensures Enabled(In(s, t, Holding(op), s.handles), t, Check)
    ensures Step(In(s, t, Holding(op), s.handles), t, Check) == In(s, t, Missed(op), s.handles)
  {
  }

  lemma ReadPoolOpens(s: Sys, t: Tid, op: Op)
    requires Free(s, t) && (op.Open? || op.Create?)
    ensures Enabled(In(s, t, Missed(op), s.handles), t, OpenReadPool(true))
    ensures Step(In(s, t, Missed(op), s.handles), t, OpenReadPool(true))
         == In(s, t, Opening(op, |s.handles|), s.handles + [Handle(op.site, true, false)])
  {
  }

  lemma WritePoolOpens(s: Sys, t: Tid, op: Op)
    requires Free(s, t) && (op.Open? || op.Create?)
    ensures var opening := In(s, t, Opening(op, |s.handles|), s.handles + [Handle(op.site, true, false)]);
            && Enabled(opening, t, OpenWritePool)
            && Step(opening, t, OpenWritePool) == In(s, t, Migrating(op, |s.handles|), s.handles + [Handle(op.site, true, true)])
  {
    assert (s.handles + [Handle(op.site, true, false)])[|s.handles| := Handle(op.site, true, true)]
        == s.handles + [Handle(op.site, true, true)];
  }

  function Opened(s: Sys, t: Tid, k: Site): Sys {
    var h := |s.handles|;
    Sys(s.dbs[k := h], s.handles + [Handle(k, true, true)], s.readers, None, s.pcs[t := Idle], s.log + [Got(t, k, h)])
  }

  lemma OpeningEnds(s: Sys, t: Tid, op: Op)
    requires Free(s, t) && (op.Open? || op.Create?)
    ensures var migrating := In(s, t, Migrating(op, |s.handles|), s.handles + [Handle(op.site, true, true)]);
            Enabled(migrating, t, Finish) && Step(migrating, t, Finish) == Opened(s, t, op.site)
  {
  }

  /**
   `Open` and `Create` of a site that is not cached, when nobody is in the way and everything opens: one new handle with
   both pools open is given out and cached, and nothing else has changed.
   */
  lemma Opens(s: Sys, t: Tid, op: Op)
    requires Free(s, t) && (op.Open? || op.Create?) && op.site !in s.dbs
    ensures Leads(s, Moves(t, Entering(op) + [OpenReadPool(true), OpenWritePool, Finish]), Opened(s, t, op.site))
  {
    hide Leads, Enabled, Step, Free, Opened, In;
    var k, h, s' := op.site, |s.handles|, Opened(s, t, op.site);
    var missed := In(s, t, Missed(op), s.handles);
    var opening := In(s, t, Opening(op, h), s.handles + [Handle(k, true, false)]);
    var migrating := In(s, t, Migrating(op, h), s.handles + [Handle(k, true, true)]);
    OpeningEnds(s, t, op);
    LastInside(migrating, t, Finish, s');
    WritePoolOpens(s, t, op);
    Inside(opening, t, OpenWritePool, [Finish], migrating, s');
    ReadPoolOpens(s, t, op);
    Inside(missed, t, OpenReadPool(true), [OpenWritePool] + [Finish], opening, s');
    FoundMissing(s, t, op);
    assert [OpenReadPool(true)] + ([OpenWritePool] + [Finish]) == [OpenReadPool(true), OpenWritePool, Finish];
    Enters(s, t, op, [OpenReadPool(true), OpenWritePool, Finish], s');
  }

  /** A site that is cached: its handle is given out, and nothing else has changed. */
  lemma GivesCached(s: Sys, t: Tid, op: Op)
    requires Free(s, t) && (op.Open? || op.Create? || op.Get?) && op.site in s.dbs
    ensures Leads(s, Moves(t, if op.Create? then [Call(op), Lock, Check] else [Call(op), RLock, Lookup]),
                  Done(s, t).(log := s.log + [Got(t, op.site, s.dbs[op.site])]))
  {
    var s' := Done(s, t).(log := s.log + [Got(t, op.site, s.dbs[op.site])]);
    if op.Create? {
      LookedUp(s, t, op);
      ThreeMoves(s, t, Call(op), Lock, Check, s.(pcs := s.pcs[t := WantWrite(op)]), In(s, t, Holding(op), s.handles), s');
    } else {
      ReadUp(s, t, op);
      ThreeMoves(s, t, Call(op), RLock, Lookup, s.(pcs := s.pcs[t := WantRead(op)]),
                 s.(readers := {t}, pcs := s.pcs[t := Reading(op)]), s');
    }
  }

  lemma ThreeMoves(s: Sys, t: Tid, a: Action, b: Action, c: Action, s1: Sys, s2: Sys, s3: Sys)
    requires Enabled(s, t, a) && Step(s, t, a) == s1 && Enabled(s1, t, b) && Step(s1, t, b) == s2
    requires Enabled(s2, t, c) && Step(s2, t, c) == s3
    ensures Leads(s, Moves(t, [a, b, c]), s3)
  {
    hide Enabled, Step, Leads;
    LastInside(s2, t, c, s3);
    Inside(s1, t, b, [c], s2, s3);
    Inside(s, t, a, [b] + [c], s1, s3);
    assert [a] + ([b] + [c]) == [a, b, c];
  }

  /** A site that is not cached: `Get` gives nothing, and `Close` and `Delete` have nothing to do. */
  lemma NothingThere(s: Sys, t: Tid, op: Op)
    requires Free(s, t) && (op.Get? || op.Close? || op.Delete?) && op.site !in s.dbs
    ensures Leads(s, Moves(t, if op.Get? then [Call(op), RLock, Lookup] else [Call(op), Lock, Check]), Done(s, t))
  {
    if op.Get? {
      ReadUp(s, t, op);
      ThreeMoves(s, t, Call(op), RLock, Lookup, s.(pcs := s.pcs[t := WantRead(op)]),
                 s.(readers := {t}, pcs := s.pcs[t := Reading(op)]), Done(s, t));
    } else {
      LookedUp(s, t, op);
      ThreeMoves(s, t, Call(op), Lock, Check, s.(pcs := s.pcs[t := WantWrite(op)]), In(s, t, Holding(op), s.handles), Done(s, t));
    }
  }

  // Openings that fail.

  lemma FirstPoolFails(s: Sys, t: Tid, op: Op)
    requires Free(s, t) && (op.Open? || op.Create?)
    ensures var missed := In(s, t, Missed(op), s.handles);
            Enabled(missed, t, OpenReadPool(false)) && Step(missed, t, OpenReadPool(false)) == Done(s, t)
  {
  }

  /** After a failure the pools that were opened are closed: here the write pool first, as after failed migrations. */
  lemma Abandons(s: Sys, t: Tid, op: Op, writer: bool)
    requires Free(s, t) && (op.Open? || op.Create?)
    ensures var k, h := op.site, |s.handles|;
            var begun := In(s, t, if writer then Migrating(op, h) else Opening(op, h), s.handles + [Handle(k, true, writer)]);
            Leads(begun, Moves(t, [Fail] + (if writer then [AbandonWritePool, AbandonReadPool, GiveUp] else [AbandonReadPool, GiveUp])),
                  Done(s, t).(handles := s.handles + [Handle(k, false, false)]))
  {
    var k, h := op.site, |s.handles|;
    var begun := In(s, t, if writer then Migrating(op, h) else Opening(op, h), s.handles + [Handle(k, true, writer)]);
    var failed := In(s, t, Abandoning(op, h), s.handles + [Handle(k, true, writer)]);
    var reading := In(s, t, Abandoning(op, h), s.handles + [Handle(k, true, false)]);
    var closed := In(s, t, Abandoning(op, h), s.handles + [Handle(k, false, false)]);
    var s' := Done(s, t).(handles := s.handles + [Handle(k, false, false)]);
    Abandoned(s, t, op, writer);
    hide Enabled, Step, Leads, In;
    LastInside(closed, t, GiveUp, s');
    Inside(reading, t, AbandonReadPool, [GiveUp], closed, s');
    assert [AbandonReadPool] + [GiveUp] == [AbandonReadPool, GiveUp];
    if writer {
      Inside(failed, t, AbandonWritePool, [AbandonReadPool, GiveUp], reading, s');
      assert [AbandonWritePool] + [AbandonReadPool, GiveUp] == [AbandonWritePool, AbandonReadPool, GiveUp];
      Inside(begun, t, Fail, [AbandonWritePool, AbandonReadPool, GiveUp], failed, s');
    } else {
      Inside(begun, t, Fail, [AbandonReadPool, GiveUp], failed, s');
    }
  }

  lemma Abandoned(s: Sys, t: Tid, op: Op, writer: bool)
    requires Free(s, t) && (op.Open? || op.Create?)
    ensures var k, h := op.site, |s.handles|;
            var begun := In(s, t, if writer then Migrating(op, h) else Opening(op, h), s.handles + [Handle(k, true, writer)]);
            var failed := In(s, t, Abandoning(op, h), s.handles + [Handle(k, true, writer)]);
            var reading := In(s, t, Abandoning(op, h), s.handles + [Handle(k, true, false)]);
            var closed := In(s, t, Abandoning(op, h), s.handles + [Handle(k, false, false)]);
            && Enabled(begun, t, Fail) && Step(begun, t, Fail) == failed
            && (writer ==> Enabled(failed, t, AbandonWritePool) && Step(failed, t, AbandonWritePool) == reading)
            && Enabled(reading, t, AbandonReadPool) && Step(reading, t, AbandonReadPool) == closed
            && Enabled(closed, t, GiveUp)
            && Step(closed, t, GiveUp) == Done(s, t).(handles := s.handles + [Handle(k, false, false)])
  {
    FailStep(s, t, op, writer);
    WritePoolCloses(s, t, op);
    ReadPoolCloses(s, t, op);
    hide Step, Enabled, Free, In;
  }

  lemma FailStep(s: Sys, t: Tid, op: Op, writer: bool)
    requires Free(s, t) && (op.Open? || op.Create?)
    ensures var h, handles := |s.handles|, s.handles + [Handle(op.site, true, writer)];
            var begun := In(s, t, if writer then Migrating(op, h) else Opening(op, h), handles);
            Enabled(begun, t, Fail) && Step(begun, t, Fail) == In(s, t, Abandoning(op, h), handles)
  {
  }

  lemma WritePoolCloses(s: Sys, t: Tid, op: Op)
    requires Free(s, t) && (op.Open? || op.Create?)
    ensures var both := In(s, t, Abandoning(op, |s.handles|), s.handles + [Handle(op.site, true, true)]);
            && Enabled(both, t, AbandonWritePool)
            && Step(both, t, AbandonWritePool) == In(s, t, Abandoning(op, |s.handles|), s.handles + [Handle(op.site, true, false)])
  {
    assert (s.handles + [Handle(op.site, true, true)])[|s.handles| := Handle(op.site, true, false)]
        == s.handles + [Handle(op.site, true, false)];
  }

  lemma ReadPoolCloses(s: Sys, t: Tid, op: Op)
    requires Free(s, t) && (op.Open? || op.Create?)
    ensures var one := In(s, t, Abandoning(op, |s.handles|), s.handles + [Handle(op.site, true, false)]);
            var none := In(s, t, Abandoning(op, |s.handles|), s.handles + [Handle(op.site, false, false)]);
            && Enabled(one, t, AbandonReadPool) && Step(one, t, AbandonReadPool) == none
            && Enabled(none, t, GiveUp)
            && Step(none, t, GiveUp) == Done(s, t).(handles := s.handles + [Handle(op.site, false, false)])
  {
    assert (s.handles + [Handle(op.site, true, false)])[|s.handles| := Handle(op.site, false, false)]
        == s.handles + [Handle(op.site, false, false)];
  }

  /**
   An opening that fails gives nothing out and caches nothing, whether it opened no pool, one or both: what it opened is
   closed, and the thread is back.
   */
  lemma OpeningFails(s: Sys, t: Tid, op: Op)
    requires Free(s, t) && (op.Open? || op.Create?) && op.site !in s.dbs
    ensures var s' := Done(s, t).(handles := s.handles + [Handle(op.site, false, false)]);
            && Leads(s, Moves(t, Entering(op) + [OpenReadPool(false)]), Done(s, t))
            && Leads(s, Moves(t, Entering(op) + ([OpenReadPool(true), Fail, AbandonReadPool, GiveUp])), s')
            && Leads(s, Moves(t, Entering(op)
                                 + [OpenReadPool(true), OpenWritePool, Fail, AbandonWritePool, AbandonReadPool, GiveUp]), s')
  {
    hide Leads, Enabled, Step, Free, In;
    var k, h := op.site, |s.handles|;
    var s' := Done(s, t).(handles := s.handles + [Handle(k, false, false)]);
    var missed := In(s, t, Missed(op), s.handles);
    var opening := In(s, t, Opening(op, h), s.handles + [Handle(k, true, false)]);
    var migrating := In(s, t, Migrating(op, h), s.handles + [Handle(k, true, true)]);
    FoundMissing(s, t, op);
    FirstPoolFails(s, t, op);
    LastInside(missed, t, OpenReadPool(false), Done(s, t));
    Enters(s, t, op, [OpenReadPool(false)], Done(s, t));
    ReadPoolOpens(s, t, op);
    Abandons(s, t, op, false);
    var one := [Fail] + [AbandonReadPool, GiveUp];
    Inside(missed, t, OpenReadPool(true), one, opening, s');
    assert [OpenReadPool(true)] + one == [OpenReadPool(true), Fail, AbandonReadPool, GiveUp];
    Enters(s, t, op, [OpenReadPool(true), Fail, AbandonReadPool, GiveUp], s');
    WritePoolOpens(s, t, op);
    Abandons(s, t, op, true);
    var both := [Fail] + [AbandonWritePool, AbandonReadPool, GiveUp];
    Inside(opening, t, OpenWritePool, both, migrating, s');
    Inside(missed, t, OpenReadPool(true), [OpenWritePool] + both, opening, s');
    assert [OpenReadPool(true)] + ([OpenWritePool] + both)
        == [OpenReadPool(true), OpenWritePool, Fail, AbandonWritePool, AbandonReadPool, GiveUp];
    Enters(s, t, op, [OpenReadPool(true), OpenWritePool, Fail, AbandonWritePool, AbandonReadPool, GiveUp], s');
  }

  // Closing.

  function Shut(s: Sys, k: Site): seq<Handle>
    requires k in s.dbs && s.dbs[k] < |s.handles|
  {
    s.handles[s.dbs[k] := s.handles[s.dbs[k]].(reader := false, writer := false)]
  }

  lemma PoolsClose(s: Sys, t: Tid, op: Op, todo: set<Site>, k: Site, handles: seq<Handle>)
    requires (op.Close? || op.Delete? || op.CloseAll?) && k in todo && k in s.dbs && s.dbs[k] < |handles|
    ensures var h := s.dbs[k];
            var closing := In(s, t, Closing(op, todo), handles);
            var half := In(s, t, HalfClosed(op, todo - {k}, k), handles[h := handles[h].(writer := false)]);
            && Enabled(closing, t, CloseWritePool(k)) && Step(closing, t, CloseWritePool(k)) == half
            && Enabled(half, t, CloseReadPool)
            && Step(half, t, CloseReadPool)
               == In(s, t, Closing(op, todo - {k}), handles[h := handles[h].(reader := false, writer := false)])
  {
    var h := s.dbs[k];
    assert handles[h := handles[h].(writer := false)][h := handles[h].(reader := false, writer := false)]
        == handles[h := handles[h].(reader := false, writer := false)];
  }

  lemma Evicts(s: Sys, t: Tid, op: Op, handles: seq<Handle>)
    requires Free(s, t) && (op.Close? || op.Delete? || op.CloseAll?)
    ensures var closing := In(s, t, Closing(op, {}), handles);
            && Enabled(closing, t, Evict)
            && Step(closing, t, Evict) == Done(s, t).(
                 handles := handles,
                 dbs := if op.CloseAll? then map[] else s.dbs - {op.site},
                 log := s.log + [if op.CloseAll? then EvictedAll else Evicted(op.site)])
  {
  }

  lemma ToClose(s: Sys, t: Tid, op: Op)
    requires Free(s, t) && (op.CloseAll? || ((op.Close? || op.Delete?) && op.site in s.dbs))
    ensures var holding := In(s, t, Holding(op), s.handles);
            && Enabled(holding, t, Check)
            && Step(holding, t, Check) == In(s, t, Closing(op, if op.CloseAll? then s.dbs.Keys else {op.site}), s.handles)
  {
  }

  /** `Close` and `Delete` of a cached site, when nobody is in the way: both pools of its handle are closed, and it is dropped. */
  lemma Closes(s: Sys, t: Tid, op: Op)
    requires Free(s, t) && (op.Close? || op.Delete?) && op.site in s.dbs && s.dbs[op.site] < |s.handles|
    ensures Leads(s, Moves(t, Entering(op) + [CloseWritePool(op.site), CloseReadPool, Evict]),
                  Done(s, t).(handles := Shut(s, op.site), dbs := s.dbs - {op.site}, log := s.log + [Evicted(op.site)]))
  {
    hide Leads, Enabled, Step, Free, In;
    var k, h := op.site, s.dbs[op.site];
    var s' := Done(s, t).(handles := Shut(s, k), dbs := s.dbs - {k}, log := s.log + [Evicted(k)]);
    var closing := In(s, t, Closing(op, {k}), s.handles);
    var half := In(s, t, HalfClosed(op, {}, k), s.handles[h := s.handles[h].(writer := false)]);
    assert {k} - {k} == {};
    Evicts(s, t, op, Shut(s, k));
    LastInside(In(s, t, Closing(op, {}), Shut(s, k)), t, Evict, s');
    PoolsClose(s, t, op, {k}, k, s.handles);
    Inside(half, t, CloseReadPool, [Evict], In(s, t, Closing(op, {}), Shut(s, k)), s');
    Inside(closing, t, CloseWritePool(k), [CloseReadPool] + [Evict], half, s');
    assert [CloseWritePool(k)] + ([CloseReadPool] + [Evict]) == [CloseWritePool(k), CloseReadPool, Evict];
    ToClose(s, t, op);
    Enters(s, t, op, [CloseWritePool(k), CloseReadPool, Evict], s');
  }

  /** Every handle of the cache is closed, and no other has changed. */
  ghost predicate AllShut(s: Sys, todo: set<Site>, before: seq<Handle>, after: seq<Handle>) {
    |after| == |before|
    && forall h :: 0 <= h < |before| ==>
         after[h] == if exists k :: k in todo && k in s.dbs && s.dbs[k] == h then before[h].(reader := false, writer := false) else before[h]
  }

  lemma {:induction false} ClosesThese(s: Sys, t: Tid, todo: set<Site>, before: seq<Handle>)
    returns (actions: seq<Action>, after: seq<Handle>)
    requires Free(s, t) && todo <= s.dbs.Keys && forall k :: k in todo ==> s.dbs[k] < |before|
    ensures AllShut(s, todo, before, after)
    ensures Leads(In(s, t, Closing(CloseAll, todo), before), Moves(t, actions + [Evict]),
                  Done(s, t).(handles := after, dbs := map[], log := s.log + [EvictedAll]))
    decreases |todo|
  {
    hide Leads, Enabled, Step, Free, In;
    if todo == {} {
      actions, after := [], before;
      Evicts(s, t, CloseAll, after);
      LastInside(In(s, t, Closing(CloseAll, {}), after), t, Evict,
                 Done(s, t).(handles := after, dbs := map[], log := s.log + [EvictedAll]));
      assert actions + [Evict] == [Evict];
    } else {
      var k := SomeSite(todo);
      var h := s.dbs[k];
      var one := before[h := before[h].(reader := false, writer := false)];
      var rest;
      rest, after := ClosesThese(s, t, todo - {k}, one);
      actions := [CloseWritePool(k), CloseReadPool] + rest;
      var s' := Done(s, t).(handles := after, dbs := map[], log := s.log + [EvictedAll]);
      var half := In(s, t, HalfClosed(CloseAll, todo - {k}, k), before[h := before[h].(writer := false)]);
      PoolsClose(s, t, CloseAll, todo, k, before);
      Inside(half, t, CloseReadPool, rest + [Evict], In(s, t, Closing(CloseAll, todo - {k}), one), s');
      Inside(In(s, t, Closing(CloseAll, todo), before), t, CloseWritePool(k), [CloseReadPool] + (rest + [Evict]), half, s');
      assert [CloseWritePool(k)] + ([CloseReadPool] + (rest + [Evict])) == actions + [Evict];
      OneMoreShut(s, todo, k, before, after);
    }
  }

  lemma SomeSite(sites: set<Site>) returns (k: Site)
    requires sites != {}
    ensures k in sites
  {
    assert (forall k :: k !in sites) ==> sites <= {};
    k :| k in sites;
  }

  lemma OneMoreShut(s: Sys, todo: set<Site>, k: Site, before: seq<Handle>, after: seq<Handle>)
    requires k in todo && k in s.dbs && s.dbs[k] < |before|
    requires AllShut(s, todo - {k}, before[s.dbs[k] := before[s.dbs[k]].(reader := false, writer := false)], after)
    ensures AllShut(s, todo, before, after)
  {
  }

  /** `CloseAll`, when nobody is in the way: the handle of every cached site is closed, and the cache is empty. */
  lemma ClosesAll(s: Sys, t: Tid) returns (actions: seq<Action>, after: seq<Handle>)
    requires Free(s, t) && forall k :: k in s.dbs ==> s.dbs[k] < |s.handles|
    ensures AllShut(s, s.dbs.Keys, s.handles, after)
    ensures Leads(s, Moves(t, Entering(CloseAll) + actions), Done(s, t).(handles := after, dbs := map[], log := s.log + [EvictedAll]))
  {
    hide Leads, Enabled, Step, Free, In, AllShut;
    actions, after := ClosesThese(s, t, s.dbs.Keys, s.handles);
    actions := actions + [Evict];
    ToClose(s, t, CloseAll);
    Enters(s, t, CloseAll, actions, Done(s, t).(handles := after, dbs := map[], log := s.log + [EvictedAll]));
  }
}
