/// One cache entry: a (key, value) pair behind the reader-preferring lock of
/// src/spin/rw_r_pre.rs, used by any number of threads through `get`, `insert` and
/// `invalidate_all` of src/cache.rs. Key and value are read and written in separate steps.
///
/// `AnswersAreWritten` is the point: a lookup that answers never mixes two writes.

module EntryProtocol {
  import opened Counting

  type Tid = nat

  /// `isize::MAX`, where the reader count panics.
  const MAX: nat := 0x7FFF_FFFF_FFFF_FFFF

  datatype PC<K, V> =
    // get
    | ReadLoad(q: K) | ReadCas(q: K, s: int) | ReadKey(q: K) | ReadValue(q: K) | ReadDone(q: K, v: V)
    // insert, or with `clear` the body of invalidate_all
    | WriteLoad(k: K, w: V, clear: bool) | WriteCas(k: K, w: V, clear: bool)
    | WriteKey(k: K, w: V, clear: bool) | WriteValue(k: K, w: V, clear: bool) | WriteDone(k: K, w: V, clear: bool)

  /// `written` is history: the pairs completed inserts have left since the entry was last cleared.
  datatype State<K, V> = State(word: int, key: K, value: V, pcs: map<Tid, PC<K, V>>, written: seq<(K, V)>)

  datatype Action<K, V> =
    | BeginGet(t: Tid, q: K)
    | BeginInsert(t: Tid, k: K, w: V)
    | BeginClear(t: Tid)
    | Advance(t: Tid)
    | Spurious(t: Tid)

  /// The default pair; `get` is never asked for its key.
  datatype Default<K, V> = Default(key: K, value: V)

  function Set<K, V>(s: State<K, V>, t: Tid, pc: PC<K, V>): State<K, V> {
    s.(pcs := s.pcs[t := pc])
  }

  function Leave<K, V>(s: State<K, V>, t: Tid): State<K, V> {
    s.(pcs := s.pcs - {t})
  }

  /// A thread that would push the reader count past its maximum panics: it takes no step.
  predicate Enabled<K(==), V>(d: Default<K, V>, s: State<K, V>, a: Action<K, V>) {
    match a
    case BeginGet(t, q) => t !in s.pcs && q != d.key
    case BeginInsert(t, k, _) => t !in s.pcs && k != d.key
    case BeginClear(t) => t !in s.pcs
    case Advance(t) => t in s.pcs && (s.pcs[t].ReadLoad? ==> s.word < MAX)
    case Spurious(t) => t in s.pcs && s.pcs[t].ReadCas?
  }

  function Step<K(==), V>(d: Default<K, V>, s: State<K, V>, a: Action<K, V>): State<K, V>
    requires Enabled(d, s, a)
  {
    match a
    case BeginGet(t, q) => Set(s, t, ReadLoad(q))
    case BeginInsert(t, k, w) => Set(s, t, WriteLoad(k, w, false))
    case BeginClear(t) => Set(s, t, WriteLoad(d.key, d.value, true))
    case Spurious(t) => Set(s, t, ReadLoad(s.pcs[t].q))
    case Advance(t) =>
      match s.pcs[t]
      case ReadLoad(q) => if s.word < 0 then s else Set(s, t, ReadCas(q, s.word))
      case ReadCas(q, w) => if s.word == w then Set(s, t, ReadKey(q)).(word := w + 1) else Set(s, t, ReadLoad(q))
      case ReadKey(q) => if s.key == q then Set(s, t, ReadValue(q)) else Set(s, t, ReadDone(q, d.value))
      case ReadValue(q) => Set(s, t, ReadDone(q, s.value))
      case ReadDone(_, _) => Leave(s, t).(word := s.word - 1)
      case WriteLoad(k, w, c) => if s.word != 0 then Leave(s, t) else Set(s, t, WriteCas(k, w, c))
      case WriteCas(k, w, c) => if s.word != 0 then Leave(s, t) else Set(s, t, WriteKey(k, w, c)).(word := -1)
      case WriteKey(k, w, c) => Set(s, t, WriteValue(k, w, c)).(key := k)
      case WriteValue(k, w, c) => Set(s, t, WriteDone(k, w, c)).(value := w)
      case WriteDone(k, w, c) => Leave(s, t).(word := 0, written := if c then [] else s.written + [(k, w)])
  }

  predicate IsReading<K, V>(pc: PC<K, V>) {
    pc.ReadKey? || pc.ReadValue? || pc.ReadDone?
  }

  predicate IsWriting<K, V>(pc: PC<K, V>) {
    pc.WriteKey? || pc.WriteValue? || pc.WriteDone?
  }

  function Readers<K, V>(s: State<K, V>): set<Tid> {
    set t | t in s.pcs && IsReading(s.pcs[t])
  }

  function Writers<K, V>(s: State<K, V>): set<Tid> {
    set t | t in s.pcs && IsWriting(s.pcs[t])
  }

  /// The pair the entry holds when nobody is writing it.
  function Current<K, V>(d: Default<K, V>, s: State<K, V>): (K, V) {
    if s.written == [] then (d.key, d.value) else s.written[|s.written| - 1]
  }

  /// What a lookup of `q` should find.
  function Answer<K(==), V>(d: Default<K, V>, s: State<K, V>, q: K): V {
    if Current(d, s).0 == q then Current(d, s).1 else d.value
  }

  ghost predicate PcOk<K(!new), V(!new)>(d: Default<K, V>, s: State<K, V>, pc: PC<K, V>) {
    match pc
    case ReadLoad(q) => q != d.key
    case ReadCas(q, w) => q != d.key && 0 <= w < MAX
    case ReadKey(q) => q != d.key
    case ReadValue(q) => q != d.key && s.key == q
    case ReadDone(q, v) => q != d.key && v == Answer(d, s, q)
    case WriteValue(k, w, c) => s.key == k && (c ==> (k, w) == (d.key, d.value)) && (!c ==> k != d.key)
    case WriteDone(k, w, c) => s.key == k && s.value == w && (c ==> (k, w) == (d.key, d.value)) && (!c ==> k != d.key)
    case _ => (pc.clear ==> (pc.k, pc.w) == (d.key, d.value)) && (!pc.clear ==> pc.k != d.key)
  }

  /// The word counts the readers, or is -1 for one writer alone.
  ghost predicate WordOk<K, V>(s: State<K, V>) {
    && (if |Writers(s)| == 0 then s.word == |Readers(s)| else |Writers(s)| == 1 && |Readers(s)| == 0 && s.word == -1)
    && s.word <= MAX
  }

  /// Without a writer, the pair is the last one written.
  ghost predicate PairOk<K, V>(d: Default<K, V>, s: State<K, V>) {
    |Writers(s)| == 0 ==> (s.key, s.value) == Current(d, s)
  }

  ghost predicate Inv<K(!new), V(!new)>(d: Default<K, V>, s: State<K, V>) {
    && WordOk(s)
    && PairOk(d, s)
    && (forall t :: t in s.pcs ==> PcOk(d, s, s.pcs[t]))
  }

  lemma InitHasInv<K(!new), V(!new)>(d: Default<K, V>)
    ensures Inv(d, State(0, d.key, d.value, map[], []))
  {
    var s := State(0, d.key, d.value, map[], []);
    assert Readers(s) == {} && Writers(s) == {};
  }

  /// What moving one thread does to the two counts.
  lemma CountsMove<K, V>(s: State<K, V>, u: State<K, V>, t: Tid)
    requires forall v :: v != t ==> (v in s.pcs <==> v in u.pcs) && (v in s.pcs && v in u.pcs ==> u.pcs[v] == s.pcs[v])
    ensures |Readers(u)| - One(t in u.pcs && IsReading(u.pcs[t])) ==
        |Readers(s)| - One(t in s.pcs && IsReading(s.pcs[t]))
    ensures |Writers(u)| - One(t in u.pcs && IsWriting(u.pcs[t])) ==
        |Writers(s)| - One(t in s.pcs && IsWriting(s.pcs[t]))
    ensures t in s.pcs && IsReading(s.pcs[t]) ==> |Readers(s)| >= 1
    ensures t in s.pcs && IsWriting(s.pcs[t]) ==> |Writers(s)| >= 1
  {
    forall v | v != t
      ensures v in Readers(s) <==> v in Readers(u)
      ensures v in Writers(s) <==> v in Writers(u)
    {
      assert v in s.pcs <==> v in u.pcs;
    }
    Except(Readers(s), Readers(u), t);
    Except(Writers(s), Writers(u), t);
  }

  /// A writer is the only thread inside.
  lemma WriterIsAlone<K(!new), V(!new)>(d: Default<K, V>, s: State<K, V>, t: Tid, u: Tid)
    requires Inv(d, s) && t in s.pcs && IsWriting(s.pcs[t]) && u in s.pcs && u != t
    ensures !IsReading(s.pcs[u]) && !IsWriting(s.pcs[u])
  {
    assert t in Writers(s);
    assert |Writers(s) - {t}| == 0;
    assert u in Readers(s) <==> IsReading(s.pcs[u]);
    assert u in Writers(s) <==> IsWriting(s.pcs[u]);
  }

  lemma StepKeepsOthers<K(!new), V(!new)>(d: Default<K, V>, s: State<K, V>, a: Action<K, V>, v: Tid)
    requires Inv(d, s) && Enabled(d, s, a) && v in s.pcs && v != a.t
    ensures v in Step(d, s, a).pcs && PcOk(d, Step(d, s, a), s.pcs[v])
  {
    hide WordOk, PairOk;
    assert PcOk(d, s, s.pcs[v]);
    if a.t in s.pcs && IsWriting(s.pcs[a.t]) { WriterIsAlone(d, s, a.t, v); }
  }

  lemma StepKeepsPcs<K(!new), V(!new)>(d: Default<K, V>, s: State<K, V>, a: Action<K, V>, v: Tid)
    requires Inv(d, s) && Enabled(d, s, a) && v in Step(d, s, a).pcs
    ensures PcOk(d, Step(d, s, a), Step(d, s, a).pcs[v])
  {
    hide WordOk, PairOk;
    if v != a.t {
      StepKeepsOthers(d, s, a, v);
    } else if v in s.pcs {
      assert PcOk(d, s, s.pcs[v]);
      if IsReading(s.pcs[v]) { ReaderSeesCurrent(d, s, v); }
    }
  }

  /// While a reader is in, the entry holds the pair last written, whole.
  lemma ReaderSeesCurrent<K(!new), V(!new)>(d: Default<K, V>, s: State<K, V>, t: Tid)
    requires Inv(d, s) && t in s.pcs && IsReading(s.pcs[t])
    ensures (s.key, s.value) == Current(d, s)
  {
    assert t in Readers(s);
  }

  /// A step of a thread that reads, or is about to.
  predicate ByReader<K(==), V(==)>(s: State<K, V>, a: Action<K, V>) {
    match a
    case BeginGet(_, _) => true
    case Spurious(_) => true
    case Advance(t) => t in s.pcs && (s.pcs[t].ReadLoad? || s.pcs[t].ReadCas? || IsReading(s.pcs[t]))
    case _ => false
  }

  lemma ReaderKeepsWord<K(!new), V(!new)>(d: Default<K, V>, s: State<K, V>, a: Action<K, V>)
    requires Inv(d, s) && Enabled(d, s, a) && ByReader(s, a)
    ensures WordOk(Step(d, s, a))
  {
    hide Current;
    var t, u := a.t, Step(d, s, a);
    CountsMove(s, u, t);
    hide Readers, Writers;
    assert t in s.pcs ==> PcOk(d, s, s.pcs[t]);
  }

  lemma WriterKeepsWord<K(!new), V(!new)>(d: Default<K, V>, s: State<K, V>, a: Action<K, V>)
    requires Inv(d, s) && Enabled(d, s, a) && !ByReader(s, a)
    ensures WordOk(Step(d, s, a))
  {
    hide Current, PcOk;
    var t, u := a.t, Step(d, s, a);
    CountsMove(s, u, t);
    hide Readers, Writers;
  }

  lemma StepKeepsWord<K(!new), V(!new)>(d: Default<K, V>, s: State<K, V>, a: Action<K, V>)
    requires Inv(d, s) && Enabled(d, s, a)
    ensures WordOk(Step(d, s, a))
  {
    if ByReader(s, a) {
      ReaderKeepsWord(d, s, a);
    } else {
      WriterKeepsWord(d, s, a);
    }
  }

  lemma ReaderKeepsPair<K(!new), V(!new)>(d: Default<K, V>, s: State<K, V>, a: Action<K, V>)
    requires Inv(d, s) && Enabled(d, s, a) && ByReader(s, a)
    ensures PairOk(d, Step(d, s, a))
  {
    hide PcOk, WordOk;
    var t, u := a.t, Step(d, s, a);
    CountsMove(s, u, t);
    hide Readers, Writers;
  }

  lemma WriterKeepsPair<K(!new), V(!new)>(d: Default<K, V>, s: State<K, V>, a: Action<K, V>)
    requires Inv(d, s) && Enabled(d, s, a) && !ByReader(s, a)
    ensures PairOk(d, Step(d, s, a))
  {
    var t, u := a.t, Step(d, s, a);
    CountsMove(s, u, t);
    hide Readers, Writers;
    assert t in s.pcs ==> PcOk(d, s, s.pcs[t]);
  }

  lemma StepKeepsPair<K(!new), V(!new)>(d: Default<K, V>, s: State<K, V>, a: Action<K, V>)
    requires Inv(d, s) && Enabled(d, s, a)
    ensures PairOk(d, Step(d, s, a))
  {
    if ByReader(s, a) {
      ReaderKeepsPair(d, s, a);
    } else {
      WriterKeepsPair(d, s, a);
    }
  }

  lemma StepKeepsInv<K(!new), V(!new)>(d: Default<K, V>, s: State<K, V>, a: Action<K, V>)
    requires Inv(d, s) && Enabled(d, s, a)
    ensures Inv(d, Step(d, s, a))
  {
    StepKeepsWord(d, s, a);
    StepKeepsPair(d, s, a);
    forall v | v in Step(d, s, a).pcs ensures PcOk(d, Step(d, s, a), Step(d, s, a).pcs[v]) { StepKeepsPcs(d, s, a, v); }
  }

  ghost predicate CanRun<K(!new), V(!new)>(d: Default<K, V>, s: State<K, V>, actions: seq<Action<K, V>>)
    decreases |actions|
  {
    actions != [] ==> Enabled(d, s, actions[0]) && CanRun(d, Step(d, s, actions[0]), actions[1..])
  }

  ghost function Run<K(!new), V(!new)>(d: Default<K, V>, s: State<K, V>, actions: seq<Action<K, V>>): State<K, V>
    requires CanRun(d, s, actions)
    decreases |actions|
  {
    if actions == [] then s else Run(d, Step(d, s, actions[0]), actions[1..])
  }

  lemma {:induction false} RunKeepsInv<K(!new), V(!new)>(d: Default<K, V>, s: State<K, V>, actions: seq<Action<K, V>>)
    requires Inv(d, s) && CanRun(d, s, actions)
    ensures Inv(d, Run(d, s, actions))
    decreases |actions|
  {
    if actions != [] {
      StepKeepsInv(d, s, actions[0]);
      RunKeepsInv(d, Step(d, s, actions[0]), actions[1..]);
    }
  }

  /// Whatever the interleaving: a `get` that is about to return answers exactly what the entry
  /// holds. If the last pair written has the key asked for, that is its value; otherwise it is the
  /// default. In particular a value other than the default was written whole, with that key, since
  /// the entry was last cleared.
  lemma AnswersAreWritten<K(!new), V(!new)>(d: Default<K, V>, actions: seq<Action<K, V>>, t: Tid)
    requires CanRun(d, State(0, d.key, d.value, map[], []), actions)
    ensures var e := Run(d, State(0, d.key, d.value, map[], []), actions);
      t in e.pcs && e.pcs[t].ReadDone? ==>
        && e.pcs[t].v == Answer(d, e, e.pcs[t].q)
        && (e.pcs[t].v != d.value ==> (e.pcs[t].q, e.pcs[t].v) in e.written)
  {
    InitHasInv(d);
    var s := State(0, d.key, d.value, map[], []);
    RunKeepsInv(d, s, actions);
    assert t in Run(d, s, actions).pcs ==> PcOk(d, Run(d, s, actions), Run(d, s, actions).pcs[t]);
  }

  /// The steps of `get` once it has the entry's lock.
  lemma ReadingAnswers<K(!new), V(!new)>(d: Default<K, V>, s: State<K, V>, t: Tid, q: K)
    requires t in s.pcs && s.pcs[t] == ReadKey(q) && (s.key, s.value) == Current(d, s)
    ensures var rest := if Current(d, s).0 == q then [Advance(t), Advance(t)] else [Advance(t)];
      CanRun(d, s, rest) && Run(d, s, rest) == Set(s, t, ReadDone(q, Answer(d, s, q)))
  {
    hide Current;
    var u := Step(d, s, Advance(t));
    if s.key == q {
      RunOne<K, V>(d, u, Advance(t), []);
      RunOne(d, s, Advance(t), [Advance(t)]);
    } else {
      RunOne<K, V>(d, s, Advance(t), []);
    }
  }

  lemma WordIsReaders<K(!new), V(!new)>(d: Default<K, V>, s: State<K, V>)
    requires Inv(d, s)
    ensures s.word >= 0 <==> Writers(s) == {}
    ensures s.word == 0 <==> Writers(s) == {} && Readers(s) == {}
    ensures Writers(s) == {} ==> (s.key, s.value) == Current(d, s)
  {
    assert |Writers(s)| == 0 <==> Writers(s) == {};
    assert |Readers(s)| == 0 <==> Readers(s) == {};
  }

  /// However many readers are in: while no writer is, a lookup that runs undisturbed gets in, is
  /// answered, and leaves the pair as it was.
  lemma LookupAnswers<K(!new), V(!new)>(d: Default<K, V>, s: State<K, V>, t: Tid, q: K)
    requires Inv(d, s) && t !in s.pcs && Writers(s) == {} && q != d.key && s.word < MAX
    ensures var rest := if Current(d, s).0 == q then [Advance(t), Advance(t)] else [Advance(t)];
      var asking := [BeginGet(t, q)] + ([Advance(t)] + ([Advance(t)] + rest));
      && CanRun(d, s, asking)
      && Run(d, s, asking) == Set(s, t, ReadDone(q, Answer(d, s, q))).(word := s.word + 1)
  {
    WordIsReaders(d, s);
    hide Inv, Readers, Writers;
    var rest := if Current(d, s).0 == q then [Advance(t), Advance(t)] else [Advance(t)];
    var s1 := Step(d, s, BeginGet(t, q));
    var s2 := Step(d, s1, Advance(t));
    var s3 := Step(d, s2, Advance(t));
    ReadingAnswers(d, s3, t, q);
    hide Current;
    RunOne(d, s2, Advance(t), rest);
    RunOne(d, s1, Advance(t), [Advance(t)] + rest);
    RunOne(d, s, BeginGet(t, q), [Advance(t)] + ([Advance(t)] + rest));
  }

  /// An insertion that runs undisturbed is given up, and changes nothing, exactly if somebody is
  /// in. Otherwise it is stored: the entry then holds its pair, whatever it held before.
  lemma InsertionDecides<K(!new), V(!new)>(d: Default<K, V>, s: State<K, V>, t: Tid, k: K, w: V)
    requires Inv(d, s) && t !in s.pcs && k != d.key
    ensures var storing := [BeginInsert(t, k, w), Advance(t)] + if s.word == 0 then Times(Advance(t), 4) else [];
      && CanRun(d, s, storing)
      && Run(d, s, storing) == if s.word == 0 then s.(key := k, value := w, written := s.written + [(k, w)]) else s
    ensures s.word == 0 <==> Writers(s) == {} && Readers(s) == {}
  {
    WordIsReaders(d, s);
    hide Inv, Readers, Writers;
    var rest := if s.word == 0 then Times(Advance(t), 4) else [];
    var s1 := Step(d, s, BeginInsert(t, k, w));
    var s2 := Step(d, s1, Advance(t));
    if s.word == 0 { WritingStores(d, s2, t); }
    RunOne<K, V>(d, s1, Advance(t), rest);
    RunOne(d, s, BeginInsert(t, k, w), [Advance(t)] + rest);
    assert [BeginInsert(t, k, w)] + ([Advance(t)] + rest) == [BeginInsert(t, k, w), Advance(t)] + rest;
  }

  function Times<T>(a: T, n: nat): seq<T> {
    if n == 0 then [] else [a] + Times(a, n - 1)
  }

  /// The steps of a write from its compare-and-swap on.
  lemma WritingStores<K(!new), V(!new)>(d: Default<K, V>, s: State<K, V>, t: Tid)
    requires t in s.pcs && s.pcs[t].WriteCas? && s.word == 0
    ensures var pc := s.pcs[t];
      && CanRun(d, s, Times(Advance(t), 4))
      && Run(d, s, Times(Advance(t), 4)) ==
          Leave(s, t).(key := pc.k, value := pc.w, written := if pc.clear then [] else s.written + [(pc.k, pc.w)])
  {
    var s1 := Step(d, s, Advance(t));
    var s2 := Step(d, s1, Advance(t));
    var s3 := Step(d, s2, Advance(t));
    RunOne<K, V>(d, s3, Advance(t), Times(Advance(t), 0));
    RunOne<K, V>(d, s2, Advance(t), Times(Advance(t), 1));
    RunOne<K, V>(d, s1, Advance(t), Times(Advance(t), 2));
    RunOne<K, V>(d, s, Advance(t), Times(Advance(t), 3));
  }

  /// Clearing an entry nobody else is using, which is what the manager's write guard guarantees:
  /// the write goes through, and forgets everything.
  lemma ClearingAloneSucceeds<K(!new), V(!new)>(d: Default<K, V>, s: State<K, V>, t: Tid)
    requires Inv(d, s) && s.pcs == map[]
    ensures var clear := [BeginClear(t), Advance(t)] + Times(Advance(t), 4);
      CanRun(d, s, clear) && Run(d, s, clear) == State(0, d.key, d.value, map[], [])
  {
    assert Readers(s) == {} && Writers(s) == {};
    WordIsReaders(d, s);
    hide Inv, Readers, Writers;
    var s1 := Step(d, s, BeginClear(t));
    var s2 := Step(d, s1, Advance(t));
    WritingStores(d, s2, t);
    var rest: seq<Action<K, V>> := Times(Advance(t), 4);
    RunOne(d, s1, Advance(t), rest);
    RunOne(d, s, BeginClear(t), [Advance(t)] + rest);
    assert [BeginClear(t)] + ([Advance(t)] + rest) == [BeginClear(t), Advance(t)] + rest;
  }

  lemma RunOne<K(!new), V(!new)>(d: Default<K, V>, s: State<K, V>, a: Action<K, V>, rest: seq<Action<K, V>>)
    requires Enabled(d, s, a) && CanRun(d, Step(d, s, a), rest)
    ensures CanRun(d, s, [a] + rest) && Run(d, s, [a] + rest) == Run(d, Step(d, s, a), rest)
  {
    assert ([a] + rest)[1..] == rest;
  }
}
