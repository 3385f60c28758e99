/// The writer-preferring lock of src/spin/rw_w_pre.rs as a step machine: one state word, any
/// number of threads, every load and compare-and-swap a step of its own, weak ones failing at will.

module RwLock {
  import opened Counting

  type Tid = nat

  /// The state word has 64 bits: locked, pending, and 62 bits of reader count.
  const WORD: nat := 0x1_0000_0000_0000_0000

  datatype PC =
    | ReadLoad | ReadCas(s: nat) | Reading
    | WriteLoad | PendingCas(s: nat) | AwaitReaders | LockCas(s: nat) | Writing

  /// Threads without an entry do not use the lock.
  datatype State = State(word: nat, pcs: map<Tid, PC>)

  datatype Action =
    | BeginRead(t: Tid)
    | BeginWrite(t: Tid)
    | Advance(t: Tid)
    | Spurious(t: Tid)

  predicate Busy(word: nat) {
    word % 4 != 0
  }

  function Set(s: State, t: Tid, pc: PC): State {
    s.(pcs := s.pcs[t := pc])
  }

  function Leave(s: State, t: Tid): State {
    s.(pcs := s.pcs - {t})
  }

  /// The wrap of the reader count is not modelled: nobody enters when there is no room.
  predicate Enabled(s: State, a: Action) {
    match a
    case BeginRead(t) => t !in s.pcs
    case BeginWrite(t) => t !in s.pcs
    case Advance(t) => t in s.pcs && (s.pcs[t].ReadCas? ==> s.word + 4 < WORD)
    case Spurious(t) => t in s.pcs && (s.pcs[t].ReadCas? || s.pcs[t].PendingCas? || s.pcs[t].LockCas?)
  }

  function Step(s: State, a: Action): State
    requires Enabled(s, a)
  {
    match a
    case BeginRead(t) => Set(s, t, ReadLoad)
    case BeginWrite(t) => Set(s, t, WriteLoad)
    case Advance(t) =>
      (match s.pcs[t]
       case ReadLoad => if Busy(s.word) then s else Set(s, t, ReadCas(s.word))
       case ReadCas(w) =>
         if s.word == w then Set(s, t, Reading).(word := (w + 4) % WORD) else Set(s, t, ReadLoad)
       case Reading => Leave(s, t).(word := (s.word + WORD - 4) % WORD)
       case WriteLoad => Set(s, t, PendingCas(s.word))
       case PendingCas(w) =>
         if Busy(w) then Leave(s, t)
         else if s.word == w then Set(s, t, AwaitReaders).(word := w + 2)
         else Set(s, t, PendingCas(s.word))
       case AwaitReaders => if s.word / 4 == 0 then Set(s, t, LockCas(s.word)) else s
       case LockCas(w) =>
         // (w & !WRITE_PENDING) | WRITE_LOCKED
         if s.word == w then Set(s, t, Writing).(word := w / 4 * 4 + 1) else Set(s, t, AwaitReaders)
       case Writing => Leave(s, t).(word := s.word / 4 * 4))
    case Spurious(t) =>
      (match s.pcs[t]
       case ReadCas(_) => Set(s, t, ReadLoad)
       case PendingCas(w) => if Busy(w) then Leave(s, t) else Set(s, t, PendingCas(s.word))
       case _ => Set(s, t, AwaitReaders))
  }

  // ---------- The invariant ----------

  function Readers(s: State): set<Tid> {
    set t | t in s.pcs && s.pcs[t].Reading?
  }

  function Pending(s: State): set<Tid> {
    set t | t in s.pcs && (s.pcs[t].AwaitReaders? || s.pcs[t].LockCas?)
  }

  function Lockers(s: State): set<Tid> {
    set t | t in s.pcs && s.pcs[t].Writing?
  }

  ghost predicate PcOk(pc: PC) {
    && (pc.ReadCas? ==> !Busy(pc.s))
    && (pc.LockCas? ==> pc.s == 2)
  }

  /// The word counts who holds what; at most one writer is pending or in; a writer that is in is
  /// alone.
  ghost predicate Inv(s: State) {
    && s.word == 4 * |Readers(s)| + 2 * |Pending(s)| + |Lockers(s)| < WORD
    && |Pending(s)| + |Lockers(s)| <= 1
    && (|Lockers(s)| == 0 || |Readers(s)| == 0)
    && (forall t :: t in s.pcs ==> PcOk(s.pcs[t]))
  }

  lemma InitHasInv()
    ensures Inv(State(0, map[]))
  {
    var s := State(0, map[]);
    assert Readers(s) == {} && Pending(s) == {} && Lockers(s) == {};
  }

  predicate IsPending(pc: PC) {
    pc.AwaitReaders? || pc.LockCas?
  }

  /// Which of the three sets a thread is in.
  lemma Places(s: State, t: Tid)
    ensures t in Readers(s) <==> t in s.pcs && s.pcs[t].Reading?
    ensures t in Pending(s) <==> t in s.pcs && IsPending(s.pcs[t])
    ensures t in Lockers(s) <==> t in s.pcs && s.pcs[t].Writing?
  {
  }

  /// What moving one thread does to the three counts.
  lemma CountsMove(s: State, u: State, t: Tid)
    requires forall v :: v != t ==> (v in s.pcs <==> v in u.pcs) && (v in s.pcs && v in u.pcs ==> u.pcs[v] == s.pcs[v])
    ensures |Readers(u)| - One(t in Readers(u)) == |Readers(s)| - One(t in Readers(s))
    ensures |Pending(u)| - One(t in Pending(u)) == |Pending(s)| - One(t in Pending(s))
    ensures |Lockers(u)| - One(t in Lockers(u)) == |Lockers(s)| - One(t in Lockers(s))
    ensures t in Readers(s) ==> |Readers(s)| >= 1
    ensures t in Pending(s) ==> |Pending(s)| >= 1
    ensures t in Lockers(s) ==> |Lockers(s)| >= 1
  {
    forall v | v != t
      ensures v in Readers(s) <==> v in Readers(u)
      ensures v in Pending(s) <==> v in Pending(u)
      ensures v in Lockers(s) <==> v in Lockers(u)
    {
      Places(s, v);
      Places(u, v);
      assert v in s.pcs <==> v in u.pcs;
    }
    Except(Readers(s), Readers(u), t);
    Except(Pending(s), Pending(u), t);
    Except(Lockers(s), Lockers(u), t);
  }

  lemma ReaderKeepsInv(s: State, t: Tid)
    requires Inv(s) && Enabled(s, Advance(t)) && (s.pcs[t].ReadLoad? || s.pcs[t].ReadCas? || s.pcs[t].Reading?)
    ensures Inv(Step(s, Advance(t)))
  {
    var u := Step(s, Advance(t));
    CountsMove(s, u, t);
    Places(s, t);
    Places(u, t);
    hide Readers, Pending, Lockers;
    assert PcOk(s.pcs[t]);
    assert t in u.pcs ==> PcOk(u.pcs[t]);
  }

  lemma WriterKeepsInv(s: State, t: Tid)
    requires Inv(s) && Enabled(s, Advance(t)) && !(s.pcs[t].ReadLoad? || s.pcs[t].ReadCas? || s.pcs[t].Reading?)
    ensures Inv(Step(s, Advance(t)))
  {
    var u := Step(s, Advance(t));
    CountsMove(s, u, t);
    Places(s, t);
    Places(u, t);
    hide Readers, Pending, Lockers;
    assert PcOk(s.pcs[t]);
    assert t in u.pcs ==> PcOk(u.pcs[t]);
  }

  lemma StepKeepsInv(s: State, a: Action)
    requires Inv(s) && Enabled(s, a)
    ensures Inv(Step(s, a))
  {
    if a.Advance? {
      if s.pcs[a.t].ReadLoad? || s.pcs[a.t].ReadCas? || s.pcs[a.t].Reading? {
        ReaderKeepsInv(s, a.t);
      } else {
        WriterKeepsInv(s, a.t);
      }
    } else {
      var t, u := a.t, Step(s, a);
      CountsMove(s, u, t);
      Places(s, t);
      Places(u, t);
      hide Readers, Pending, Lockers;
      assert t in u.pcs ==> PcOk(u.pcs[t]);
    }
  }

  /// While a writer is pending or in, no reader enters.
  lemma WriterKeepsReadersOut(s: State, a: Action)
    requires Inv(s) && Enabled(s, a) && (Pending(s) != {} || Lockers(s) != {})
    ensures Readers(Step(s, a)) <= Readers(s)
  {
    if a.Advance? && s.pcs[a.t].ReadCas? {
      assert !Busy(s.pcs[a.t].s);
      assert Busy(s.word);
    }
  }

  // ---------- Runs ----------

  ghost predicate CanRun(s: State, actions: seq<Action>)
    decreases |actions|
  {
    actions != [] ==> Enabled(s, actions[0]) && CanRun(Step(s, actions[0]), actions[1..])
  }

  ghost function Run(s: State, actions: seq<Action>): State
    requires CanRun(s, actions)
    decreases |actions|
  {
    if actions == [] then s else Run(Step(s, actions[0]), actions[1..])
  }

  /// In every state of every run the word tells the truth, and a writer in excludes everyone else.
  lemma {:induction false} RunKeepsInv(s: State, actions: seq<Action>)
    requires Inv(s) && CanRun(s, actions)
    ensures Inv(Run(s, actions))
    decreases |actions|
  {
    if actions != [] {
      StepKeepsInv(s, actions[0]);
      RunKeepsInv(Step(s, actions[0]), actions[1..]);
    }
  }

  /// Thread t is pending or writing in every state of the run but the last.
  ghost predicate Engaged(s: State, actions: seq<Action>, t: Tid)
    requires CanRun(s, actions)
    decreases |actions|
  {
    actions != [] ==>
      && t in s.pcs && (IsPending(s.pcs[t]) || s.pcs[t].Writing?)
      && Engaged(Step(s, actions[0]), actions[1..], t)
  }

  /// From the moment a writer is pending until it leaves, readers only go, so they run out.
  lemma {:induction false} WriterDrainsReaders(s: State, actions: seq<Action>, t: Tid)
    requires Inv(s) && CanRun(s, actions) && Engaged(s, actions, t)
    ensures Readers(Run(s, actions)) <= Readers(s)
    decreases |actions|
  {
    if actions != [] {
      Places(s, t);
      WriterKeepsReadersOut(s, actions[0]);
      StepKeepsInv(s, actions[0]);
      WriterDrainsReaders(Step(s, actions[0]), actions[1..], t);
    }
  }

  /// Mutual exclusion: of two threads holding guards, neither is the writer.
  lemma GuardsExclude(s: State, t: Tid, u: Tid)
    requires Inv(s) && t in s.pcs && u in s.pcs && t != u
    requires s.pcs[t].Writing?
    ensures !s.pcs[u].Reading? && !s.pcs[u].Writing? && !IsPending(s.pcs[u])
  {
    OnlyOne(s, t);
    assert u in Readers(s) <==> s.pcs[u].Reading?;
    assert u in Pending(s) <==> IsPending(s.pcs[u]);
    assert u in Lockers(s) <==> s.pcs[u].Writing?;
  }

  lemma OnlyOne(s: State, t: Tid)
    requires Inv(s) && t in Lockers(s)
    ensures Lockers(s) == {t} && Pending(s) == {} && Readers(s) == {}
  {
    assert |Lockers(s) - {t}| == |Lockers(s)| - 1;
  }

  lemma RunOne(s: State, a: Action, rest: seq<Action>)
    requires Enabled(s, a) && CanRun(Step(s, a), rest)
    ensures CanRun(s, [a] + rest) && Run(s, [a] + rest) == Run(Step(s, a), rest)
  {
    assert ([a] + rest)[1..] == rest;
  }

  // ---------- Progress ----------

  /// Thread t is pending, and no reader is in.
  ghost predicate Drained(s: State, t: Tid) {
    t in Pending(s) && Readers(s) == {}
  }

  lemma DrainedWord(s: State, t: Tid)
    requires Inv(s) && Drained(s, t)
    ensures s.word == 2 && Pending(s) == {t} && Lockers(s) == {}
  {
    assert |Pending(s) - {t}| == |Pending(s)| - 1;
  }

  /// Nobody can keep a drained writer from its compare-and-swap any more.
  lemma OthersKeepDrained(s: State, a: Action, t: Tid)
    requires Inv(s) && Enabled(s, a) && Drained(s, t) && a.t != t
    ensures var u := Step(s, a); Drained(u, t) && u.word == s.word && u.pcs[t] == s.pcs[t]
  {
    var u := Step(s, a);
    DrainedWord(s, t);
    WriterKeepsReadersOut(s, a);
    StepKeepsInv(s, a);
    Places(s, t);
    Places(u, t);
    DrainedWord(u, t);
  }

  /// It is in after two steps of its own, unless the compare-and-swap fails spuriously.
  lemma DrainedSteps(s: State, a: Action, t: Tid)
    requires Inv(s) && Enabled(s, a) && Drained(s, t) && a.t == t
    ensures var u := Step(s, a);
      if a.Spurious? then Drained(u, t) && s.pcs[t] == LockCas(2) && u.pcs[t] == AwaitReaders
      else if s.pcs[t].AwaitReaders? then Drained(u, t) && u.pcs[t] == LockCas(2)
      else u.pcs == s.pcs[t := Writing]
  {
    var u := Step(s, a);
    DrainedWord(s, t);
    Places(s, t);
    Places(u, t);
    assert PcOk(s.pcs[t]);
    assert forall v :: v in Readers(u) && v != t ==> v in Readers(s);
  }

  /// How many steps of one kind t takes.
  function Count(actions: seq<Action>, a: Action): nat {
    if actions == [] then 0 else One(actions[0] == a) + Count(actions[1..], a)
  }

  /// Thread t has not got in by the end of the run, nor before.
  ghost predicate KeptOut(s: State, actions: seq<Action>, t: Tid)
    requires CanRun(s, actions)
    decreases |actions|
  {
    && t in s.pcs && !s.pcs[t].Writing?
    && (actions != [] ==> KeptOut(Step(s, actions[0]), actions[1..], t))
  }

  /// Once the readers are gone, a pending writer is kept out by nothing but its own spurious
  /// failures: all its other steps but one are matched by those.
  lemma {:induction false} DrainedWriterGetsIn(s: State, actions: seq<Action>, t: Tid)
    requires Inv(s) && CanRun(s, actions) && Drained(s, t) && KeptOut(s, actions, t)
    ensures var e := Run(s, actions);
      && Drained(e, t)
      && Count(actions, Advance(t)) + One(s.pcs[t].LockCas?) == Count(actions, Spurious(t)) + One(e.pcs[t].LockCas?)
    decreases |actions|
  {
    Places(s, t);
    if actions != [] {
      var a, u := actions[0], Step(s, actions[0]);
      StepKeepsInv(s, a);
      if a.t == t { DrainedSteps(s, a, t); } else { OthersKeepDrained(s, a, t); }
      assert KeptOut(u, actions[1..], t);
      DrainedWriterGetsIn(u, actions[1..], t);
    }
  }

  /// A reader can always drop its guard.
  lemma ReaderLeaves(s: State, r: Tid)
    requires Inv(s) && r in Readers(s)
    ensures Enabled(s, Advance(r))
    ensures var u := Step(s, Advance(r)); Inv(u) && Readers(u) == Readers(s) - {r} && Pending(u) == Pending(s)
  {
    StepKeepsInv(s, Advance(r));
  }

  /// From any state the way in for a pending writer: every reader inside drops its guard, and the
  /// writer takes at most two steps.
  lemma {:induction false} PendingWriterCanGetIn(s: State, t: Tid) returns (actions: seq<Action>)
    requires Inv(s) && t in Pending(s)
    ensures CanRun(s, actions) && t in Run(s, actions).pcs && Run(s, actions).pcs[t] == Writing
    ensures |actions| <= |Readers(s)| + 2
    decreases |Readers(s)|
  {
    Places(s, t);
    if r :| r in Readers(s) {
      ReaderLeaves(s, r);
      var rest := PendingWriterCanGetIn(Step(s, Advance(r)), t);
      RunOne(s, Advance(r), rest);
      actions := [Advance(r)] + rest;
    } else {
      actions := DrainedWriterEnters(s, t);
    }
  }

  lemma DrainedWriterEnters(s: State, t: Tid) returns (actions: seq<Action>)
    requires Inv(s) && Drained(s, t)
    ensures CanRun(s, actions) && t in Run(s, actions).pcs && Run(s, actions).pcs[t] == Writing && |actions| <= 2
  {
    var u := Step(s, Advance(t));
    DrainedSteps(s, Advance(t), t);
    StepKeepsInv(s, Advance(t));
    if s.pcs[t].AwaitReaders? {
      DrainedSteps(u, Advance(t), t);
      RunOne(u, Advance(t), []);
      RunOne(s, Advance(t), [Advance(t)]);
      actions := [Advance(t), Advance(t)];
    } else {
      RunOne(s, Advance(t), []);
      actions := [Advance(t)];
    }
  }

  /// No writer is pending or in.
  ghost predicate NoWriter(s: State) {
    Pending(s) == {} && Lockers(s) == {}
  }

  /// The two low bits of the word say whether a writer is there.
  lemma WordTells(s: State)
    requires Inv(s)
    ensures Busy(s.word) <==> !NoWriter(s)
  {
    assert |Pending(s)| == 0 <==> Pending(s) == {};
    assert |Lockers(s)| == 0 <==> Lockers(s) == {};
  }

  /// No step of the run is taken while a writer is pending or in.
  ghost predicate Unwritten(s: State, actions: seq<Action>)
    requires CanRun(s, actions)
    decreases |actions|
  {
    actions != [] ==> NoWriter(s) && Unwritten(Step(s, actions[0]), actions[1..])
  }

  predicate WantsToRead(s: State, t: Tid) {
    t in s.pcs && (s.pcs[t].ReadLoad? || s.pcs[t].ReadCas?)
  }

  /// Thread t asks for a read guard in every state of the run, and has none at its end.
  ghost predicate StillOut(s: State, actions: seq<Action>, t: Tid)
    requires CanRun(s, actions)
    decreases |actions|
  {
    WantsToRead(s, t) && (actions != [] ==> StillOut(Step(s, actions[0]), actions[1..], t))
  }

  /// How often other threads change the word, by entering or leaving.
  ghost function Changes(s: State, actions: seq<Action>, t: Tid): nat
    requires CanRun(s, actions)
    decreases |actions|
  {
    if actions == [] then 0
    else
      One(actions[0].t != t && Step(s, actions[0]).word != s.word) + Changes(Step(s, actions[0]), actions[1..], t)
  }

  /// The steps a reader has to go, if nothing fails.
  function ReadSteps(s: State, t: Tid): nat
    requires WantsToRead(s, t)
  {
    match s.pcs[t]
    case ReadLoad => 2
    case ReadCas(w) => if w == s.word then 1 else 3
  }

  lemma ReaderMovesOn(s: State, a: Action, t: Tid)
    requires Inv(s) && Enabled(s, a) && NoWriter(s) && WantsToRead(s, t) && WantsToRead(Step(s, a), t)
    ensures var u := Step(s, a);
      One(a == Advance(t)) + ReadSteps(u, t)
        <= ReadSteps(s, t) + One(a == Spurious(t)) + 2 * One(a.t != t && u.word != s.word)
  {
    WordTells(s);
    hide Readers, Pending, Lockers;
  }

  /// Readers do not shut each other out: while no writer is pending or in, all steps of a reader
  /// that is still out, but three, answer for its own spurious failures and, two for each, for
  /// other threads entering or leaving under it.
  lemma {:induction false} ReaderGetsIn(s: State, actions: seq<Action>, t: Tid)
    requires Inv(s) && CanRun(s, actions) && Unwritten(s, actions) && StillOut(s, actions, t)
    ensures Count(actions, Advance(t)) + 1 <=
        ReadSteps(s, t) + Count(actions, Spurious(t)) + 2 * Changes(s, actions, t)
    decreases |actions|
  {
    if actions != [] {
      var u := Step(s, actions[0]);
      StepKeepsInv(s, actions[0]);
      assert StillOut(u, actions[1..], t);
      ReaderMovesOn(s, actions[0], t);
      ReaderGetsIn(u, actions[1..], t);
    }
  }

  /// Alone it takes what is left of its load and compare-and-swap, however many readers are in.
  lemma {:induction false} ReaderCanGetIn(s: State, t: Tid) returns (actions: seq<Action>)
    requires Inv(s) && NoWriter(s) && WantsToRead(s, t) && s.word + 4 < WORD
    ensures CanRun(s, actions) && |actions| == ReadSteps(s, t) && forall a :: a in actions ==> a == Advance(t)
    ensures var e := Run(s, actions); t in e.pcs && e.pcs[t] == Reading && e.word == s.word + 4
    decreases ReadSteps(s, t)
  {
    var u := Step(s, Advance(t));
    StepKeepsInv(s, Advance(t));
    if WantsToRead(u, t) {
      ReaderMovesOn(s, Advance(t), t);
      assert NoWriter(u) by {
        WordTells(s);
        WordTells(u);
      }
      var rest := ReaderCanGetIn(u, t);
      RunOne(s, Advance(t), rest);
      actions := [Advance(t)] + rest;
    } else {
      RunOne(s, Advance(t), []);
      actions := [Advance(t)];
    }
  }

  /// Thread t has asked for the write guard, and has seen no other writer.
  predicate MayWrite(s: State, t: Tid) {
    t in s.pcs && (s.pcs[t].WriteLoad? || (s.pcs[t].PendingCas? && !Busy(s.pcs[t].s)))
  }

  /// `try_write` is refused by a writer only: as long as no writer is pending or in, whatever the
  /// readers do, it goes on until it is pending itself.
  lemma {:induction false} OnlyWritersRefuse(s: State, actions: seq<Action>, t: Tid)
    requires Inv(s) && CanRun(s, actions) && Unwritten(s, actions) && MayWrite(s, t)
    ensures var e := Run(s, actions); MayWrite(e, t) || t in Pending(e)
    decreases |actions|
  {
    if actions != [] {
      var u := Step(s, actions[0]);
      WordTells(s);
      StepKeepsInv(s, actions[0]);
      Places(u, t);
      if MayWrite(u, t) {
        OnlyWritersRefuse(u, actions[1..], t);
      } else {
        assert t in Pending(u);
      }
    }
  }

  /// Two steps undisturbed decide: refused, and nothing changed, exactly if a writer is there;
  /// pending otherwise.
  lemma TryWriteDecides(s: State, t: Tid)
    requires Inv(s) && t in s.pcs && s.pcs[t] == WriteLoad
    ensures var two := [Advance(t), Advance(t)];
      && CanRun(s, two)
      && (NoWriter(s) <==> t in Run(s, two).pcs)
      && (NoWriter(s) ==> t in Pending(Run(s, two)))
      && (!NoWriter(s) ==> Run(s, two) == Leave(s, t))
  {
    var u := Step(s, Advance(t));
    WordTells(s);
    RunOne(u, Advance(t), []);
    RunOne(s, Advance(t), [Advance(t)]);
    Places(Step(u, Advance(t)), t);
  }

  /// A thread alone gets the write guard in five steps, and leaves the lock as it was in a sixth.
  lemma TryWriteAloneSucceeds(t: Tid)
    ensures var entering := [BeginWrite(t), Advance(t), Advance(t), Advance(t), Advance(t)];
      && CanRun(State(0, map[]), entering)
      && Run(State(0, map[]), entering) == State(1, map[t := Writing])
      && Step(State(1, map[t := Writing]), Advance(t)) == State(0, map[])
  {
    var s := State(0, map[]);
    var s1 := Step(s, BeginWrite(t));
    var s2 := Step(s1, Advance(t));
    var s3 := Step(s2, Advance(t));
    var s4 := Step(s3, Advance(t));
    var s5 := Step(s4, Advance(t));
    assert s5 == State(1, map[t := Writing]);
    assert Step(s5, Advance(t)) == s;
    RunOne(s4, Advance(t), []);
    RunOne(s3, Advance(t), [Advance(t)]);
    RunOne(s2, Advance(t), [Advance(t), Advance(t)]);
    RunOne(s1, Advance(t), [Advance(t), Advance(t), Advance(t)]);
    RunOne(s, BeginWrite(t), [Advance(t), Advance(t), Advance(t), Advance(t)]);
  }
}
