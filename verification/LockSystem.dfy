/** The session lock as a timed transition system: every command is one atomic step on LOCK.md, and any
    number of sessions, crashes, audit and registry entries may interleave. */
module LockSystem {
  import opened Text
  import opened Wrappers
  import opened YamlLine
  import opened LockFile

  /** A session that has acquired the lock and neither released it nor crashed. */
  datatype Session = Session(id: nat, holder: string, run: string, since: int, expires: string)

  datatype System = System(now: int, lock: Option<string>, audit: string, registry: string, live: set<Session>, next: nat)

  datatype Action = Tick(elapsed: nat) | AcquireBy(holder: string, run: string, expires: string) | ReleaseBy(session: Session)
                  | RecoverNow | AppendAudit(text: string) | AppendRegistry(text: string) | CrashOf(session: Session)

  /** Only the holder releases; arguments are words the readers can give back. */
  ghost predicate Enabled(s: System, a: Action) {
    match a
    case AcquireBy(holder, run, expires) => Word(holder) && Word(run) && !Unknown(run) && PlainExpiry(expires)
    case ReleaseBy(x) => x in s.live
    case CrashOf(x) => x in s.live
    case _ => true
  }

  function Do(s: System, a: Action, iso: Iso): System {
    match a
    case Tick(d) => s.(now := s.now + d)
    case AcquireBy(holder, run, expires) =>
      var (lock, answer) := Acquire(s.lock, holder, run, expires, s.now, iso);
      if answer != Acquired then s.(lock := lock) else
      s.(lock := lock, live := s.live + {Session(s.next, holder, run, s.now / SECOND, expires)}, next := s.next + 1)
    case ReleaseBy(x) => s.(lock := Release(s.lock).0, live := s.live - {x})
    case RecoverNow => s.(lock := CrashRecover(s.lock, s.audit, s.registry, s.now, iso).0)
    case AppendAudit(t) => s.(audit := s.audit + t)
    case AppendRegistry(t) => s.(registry := s.registry + t)
    case CrashOf(x) => s.(live := s.live - {x})
  }

  function After(s: System, actions: seq<Action>, n: nat, iso: Iso): System
    requires n <= |actions|
  {
    if n == 0 then s else Do(After(s, actions, n - 1, iso), actions[n - 1], iso)
  }

  /** Printing then parsing whole seconds gives them back. */
  ghost predicate IsoOk(iso: Iso) {
    forall n :: Stamp(iso.format(n)) && iso.parse(iso.format(n)) == Parsed(n * SECOND)
  }

  /** Strictly before its expiry and before ten minutes past the written locked_at. */
  predicate InTime(x: Session, now: int, iso: Iso) {
    iso.parse(x.expires).Parsed? && now < iso.parse(x.expires).t && now < x.since * SECOND + 10 * MINUTE
  }

  ghost predicate Timely(s: System, iso: Iso) { forall x :: x in s.live ==> InTime(x, s.now, iso) }

  ghost predicate Plain(x: Session) { Word(x.holder) && Word(x.run) && !Unknown(x.run) && PlainExpiry(x.expires) }

  /** The lock file names the session. */
  ghost predicate Names(lock: Option<string>, x: Session, iso: Iso) {
    exists failures: nat :: lock == Some(Held(x.holder, x.run, iso.format(x.since), x.expires, failures))
  }

  /** At most one session is live, and then the lock names it. */
  ghost predicate Exclusive(s: System, iso: Iso) {
    s.live == {} || exists x :: s.live == {x} && Plain(x) && Names(s.lock, x, iso)
  }

  // ---------------------------------------------------------------- a lock that names its session

  /** A lock that names a session denies everyone else exactly until the session's expiry. */
  lemma {:induction false} HeldDenies(lock: Option<string>, x: Session, holder: string, run: string, expires: string, now: int, iso: Iso)
    requires IsoOk(iso) && Plain(x) && Names(lock, x, iso)
    ensures Acquire(lock, holder, run, expires, now, iso).1 ==
            match iso.parse(x.expires)
            case Parsed(t) => if now < t then Denied else Acquired
            case Naive => Failed
            case Unparseable => Acquired
  {
    hide Held;
    hide IsLocked;
    hide ExpiryOf;
    hide FailuresOf;
    hide Word;
    hide PlainExpiry;
    hide Stamp;
    var failures: nat :| lock == Some(Held(x.holder, x.run, iso.format(x.since), x.expires, failures));
    HeldReads(x.holder, x.run, iso.format(x.since), x.expires, failures);
  }

  /** crash-recover takes the lock from the session it names exactly when ten minutes have passed, the
      audit log shows the session past T0, and the registry does not know it. */
  lemma {:induction false} HeldRecovers(lock: Option<string>, x: Session, audit: string, registry: string, now: int, iso: Iso)
    requires IsoOk(iso) && Plain(x) && Names(lock, x, iso)
    ensures CrashRecover(lock, audit, registry, now, iso).1.Recovered? <==>
            now >= x.since * SECOND + 10 * MINUTE && Started(SplitLines(audit), x.run) && !Contains(registry, x.run)
    ensures !CrashRecover(lock, audit, registry, now, iso).1.Recovered? ==>
            CrashRecover(lock, audit, registry, now, iso).0 == lock
  {
    hide Held;
    hide FieldsOf;
    hide Word;
    hide PlainExpiry;
    hide Stamp;
    hide Started;
    hide Contains;
    hide Strip;
    hide SplitLines;
    var failures: nat :| lock == Some(Held(x.holder, x.run, iso.format(x.since), x.expires, failures));
    assert Stamp(iso.format(x.since)) && iso.parse(iso.format(x.since)) == Parsed(x.since * SECOND);
    HeldFields(x.holder, x.run, iso.format(x.since), x.expires, failures);
    TenMinutes(now - x.since * SECOND);
  }

  lemma TenMinutes(d: int)
    ensures d / MINUTE < 10 <==> d < 10 * MINUTE
  {}

  lemma HeldReleases(lock: Option<string>, x: Session, iso: Iso)
    requires IsoOk(iso) && Plain(x) && Names(lock, x, iso)
    ensures Release(lock) == (Some(RELEASED), Acquired)
  {
    hide Held;
    hide IsLocked;
    hide ExpiryOf;
    hide FailuresOf;
    hide Word;
    hide PlainExpiry;
    hide Stamp;
    var failures: nat :| lock == Some(Held(x.holder, x.run, iso.format(x.since), x.expires, failures));
    HeldReads(x.holder, x.run, iso.format(x.since), x.expires, failures);
  }

  lemma AcquiredNames(lock: Option<string>, holder: string, run: string, expires: string, now: int, id: nat, iso: Iso)
    requires Acquire(lock, holder, run, expires, now, iso).1 == Acquired
    ensures Names(Acquire(lock, holder, run, expires, now, iso).0, Session(id, holder, run, now / SECOND, expires), iso)
  {
    hide Held;
    hide IsLocked;
    hide ExpiryOf;
    hide FailuresOf;
    var failures := if lock.Some? then FailuresOf(lock.value) else 0;
    assert Acquire(lock, holder, run, expires, now, iso).0 == Some(Held(holder, run, iso.format(now / SECOND), expires, failures));
  }

  // ---------------------------------------------------------------- mutual exclusion

  lemma {:induction false} ExclusiveStep(s: System, a: Action, iso: Iso)
    requires IsoOk(iso) && Exclusive(s, iso) && Timely(s, iso) && Enabled(s, a)
    ensures Exclusive(Do(s, a, iso), iso)
  {
    hide Names;
    hide Acquire;
    hide CrashRecover;
    hide Release;
    hide IsoOk;
    hide Plain;
    hide Started;
    hide Contains;
    hide SplitLines;
    if s.live == {} {
      if a.AcquireBy? && Acquire(s.lock, a.holder, a.run, a.expires, s.now, iso).1 == Acquired {
        AcquiredNames(s.lock, a.holder, a.run, a.expires, s.now, s.next, iso);
        var x := Session(s.next, a.holder, a.run, s.now / SECOND, a.expires);
        PlainArgs(x, s, a);
        assert Do(s, a, iso).live == {x};
      }
    } else {
      var x :| s.live == {x} && Plain(x) && Names(s.lock, x, iso);
      assert x in s.live;
      HeldRecovers(s.lock, x, s.audit, s.registry, s.now, iso);
      match a
      case AcquireBy(holder, run, expires) =>
        HeldDenies(s.lock, x, holder, run, expires, s.now, iso);
        DeniedKeeps(s.lock, holder, run, expires, s.now, iso);
      case ReleaseBy(y) => assert Do(s, a, iso).live == {};
      case CrashOf(y) => assert Do(s, a, iso).live == {};
      case _ =>
    }
  }

  lemma PlainArgs(x: Session, s: System, a: Action)
    requires a.AcquireBy? && Enabled(s, a) && x.holder == a.holder && x.run == a.run && x.expires == a.expires
    ensures Plain(x)
  {}

  lemma DeniedKeeps(lock: Option<string>, holder: string, run: string, expires: string, now: int, iso: Iso)
    ensures Acquire(lock, holder, run, expires, now, iso).1 != Acquired ==> Acquire(lock, holder, run, expires, now, iso).0 == lock
  {
    hide Held;
    hide IsLocked;
    hide ExpiryOf;
    hide FailuresOf;
  }

  /** Over every interleaving: as long as live sessions are in time whenever a command runs, at most one
      session is live at any moment, and the lock names it. */
  lemma {:induction false} MutualExclusion(s: System, actions: seq<Action>, n: nat, iso: Iso)
    requires IsoOk(iso) && s.live == {} && n <= |actions|
    requires forall k :: 0 <= k < n ==> Enabled(After(s, actions, k, iso), actions[k]) && Timely(After(s, actions, k, iso), iso)
    ensures Exclusive(After(s, actions, n, iso), iso) && |After(s, actions, n, iso).live| <= 1
  {
    hide Names;
    hide Do;
    hide Plain;
    hide IsoOk;
    hide Enabled;
    hide Timely;
    if n > 0 {
      MutualExclusion(s, actions, n - 1, iso);
      ExclusiveStep(After(s, actions, n - 1, iso), actions[n - 1], iso);
    }
  }

  /** The deadlines are needed: with one session live, another can acquire exactly when the first one's
      expiry is unreadable or has come. */
  lemma {:induction false} SecondHolder(s: System, x: Session, a: Action, iso: Iso)
    requires IsoOk(iso) && s.live == {x} && Plain(x) && Names(s.lock, x, iso) && a.AcquireBy? && x.id < s.next
    ensures Exclusive(Do(s, a, iso), iso) <==>
            iso.parse(x.expires).Naive? || (iso.parse(x.expires).Parsed? && s.now < iso.parse(x.expires).t)
  {
    hide Names;
    hide Acquire;
    hide IsoOk;
    hide Plain;
    HeldDenies(s.lock, x, a.holder, a.run, a.expires, s.now, iso);
    DeniedKeeps(s.lock, a.holder, a.run, a.expires, s.now, iso);
    var y := Session(s.next, a.holder, a.run, s.now / SECOND, a.expires);
    if Acquire(s.lock, a.holder, a.run, a.expires, s.now, iso).1 == Acquired {
      var live := Do(s, a, iso).live;
      assert x in live && y in live && x != y;
      forall z ensures live != {z} { assert live == {z} ==> x == z && y == z; }
    }
  }

  // ---------------------------------------------------------------- the failure counter

  function Failures(lock: Option<string>): nat { if lock.Some? then FailuresOf(lock.value) else 0 }

  lemma {:induction false} AcquireKeeps(s: System, holder: string, run: string, expires: string, iso: Iso)
    requires IsoOk(iso) && Enabled(s, AcquireBy(holder, run, expires))
    ensures Failures(Acquire(s.lock, holder, run, expires, s.now, iso).0) == Failures(s.lock)
  {
    hide Held;
    hide IsLocked;
    hide ExpiryOf;
    hide FailuresOf;
    hide FieldsOf;
    hide Started;
    hide Contains;
    hide Strip;
    hide SplitLines;
    hide Word;
    hide PlainExpiry;
    hide Stamp;
    assert Stamp(iso.format(s.now / SECOND));
    HeldReads(holder, run, iso.format(s.now / SECOND), expires, Failures(s.lock));
  }

  lemma ReleaseResets(lock: Option<string>)
    ensures Failures(Release(lock).0) == if Release(lock).1 == Acquired then 0 else Failures(lock)
  {
    hide IsLocked;
    hide FailuresOf;
    ReleasedReads();
  }

  lemma RecoverResets(s: System, iso: Iso)
    ensures var r := CrashRecover(s.lock, s.audit, s.registry, s.now, iso);
            Failures(r.0) == if r.1.Recovered? then 0 else Failures(s.lock)
  {
    hide IsLocked;
    hide FailuresOf;
    hide FieldsOf;
    hide Unknown;
    hide Get;
    hide Started;
    hide Contains;
    hide Strip;
    hide SplitLines;
    ReleasedReads();
    hide BodyLines;
    hide Written;
  }

  /** Every acquire keeps the counter; only a release or a recovery that goes through resets it. */
  lemma {:induction false} FailuresKept(s: System, a: Action, iso: Iso)
    requires IsoOk(iso) && Enabled(s, a)
    ensures Failures(Do(s, a, iso).lock) ==
            if (a.ReleaseBy? && Release(s.lock).1 == Acquired)
               || (a.RecoverNow? && CrashRecover(s.lock, s.audit, s.registry, s.now, iso).1.Recovered?)
            then 0 else Failures(s.lock)
  {
    hide Acquire;
    hide Release;
    hide CrashRecover;
    hide Failures;
    match a
    case AcquireBy(holder, run, expires) => AcquireKeeps(s, holder, run, expires, iso);
    case ReleaseBy(_) => ReleaseResets(s.lock);
    case RecoverNow => RecoverResets(s, iso);
    case _ =>
  }

  /** So without a release or recovery the counter survives any number of steps, crashes and re-acquisitions. */
  lemma {:induction false} FailuresSurvive(s: System, actions: seq<Action>, n: nat, iso: Iso)
    requires IsoOk(iso) && n <= |actions|
    requires forall k :: 0 <= k < n ==> Enabled(After(s, actions, k, iso), actions[k])
    requires forall k :: 0 <= k < n ==> !actions[k].ReleaseBy? && !actions[k].RecoverNow?
    ensures Failures(After(s, actions, n, iso).lock) == Failures(s.lock)
  {
    hide Do;
    hide Failures;
    hide IsoOk;
    hide Enabled;
    hide Release;
    hide CrashRecover;
    if n > 0 {
      FailuresSurvive(s, actions, n - 1, iso);
      FailuresKept(After(s, actions, n - 1, iso), actions[n - 1], iso);
    }
  }
}
