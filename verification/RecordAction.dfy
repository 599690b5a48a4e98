/**
 * `record_action` as interleaved transactions of any number of callers over a READ COMMITTED
 * store: an insert of a key waits for the transaction that holds the key, a skipped insert
 * reads what was committed, and a caller may fail at any point, even after its commit. The
 * statement it was waiting for may still take effect after the failure was reported.
 */
module RecordAction {
  import opened Seqs
  import opened Json

  type Uuid = nat
  datatype Payload = Payload(actorSubject: string, actorSessionId: string, resource: string, action: string, reason: string)
  datatype Input = Input(key: string, payload: Payload)
  datatype Row = Row(id: Uuid, key: string, payload: Payload)
  datatype Outcome = Ok(id: Uuid) | Conflict | Failed

  /** Where one call is; everything before `Committed` is visible to its own transaction only. */
  datatype Caller =
    | Idle
    | Begun(input: Input, id: Uuid)
    | Inserted(input: Input, id: Uuid)
    | Published(input: Input, id: Uuid)
    | Skipped(input: Input, id: Uuid)
    | Matched(input: Input, id: Uuid)
    | Mismatched(input: Input)
    | Committed(input: Input, id: Uuid)
    | Answered(input: Input, outcome: Outcome)
    /** Reported as failed with its transaction still open: an insert or a commit may be on its way. */
    | Left(input: Input, id: Uuid, holds: bool, commits: bool)

  /** The committed rows and outbox events, oldest first, every identifier ever drawn, and the calls. */
  datatype State = State(rows: seq<Row>, outbox: seq<Uuid>, drawn: set<Uuid>, callers: seq<Caller>)

  datatype Event =
    | Begin(caller: nat, input: Input, id: Uuid)
    | Insert(caller: nat)
    | Select(caller: nat)
    | Publish(caller: nat)
    | Commit(caller: nat)
    | Reply(caller: nat)
    | Fail(caller: nat)
    /** The statement on its way when the caller gave up takes effect. */
    | Late(caller: nat)
    /** The database ends a transaction whose caller is gone. */
    | Discard(caller: nat)

  function KeyOf(r: Row): string { r.key }
  function IdOf(r: Row): Uuid { r.id }

  predicate HasKey(rows: seq<Row>, key: string) { key in Map(KeyOf, rows) }
  predicate HasId(rows: seq<Row>, id: Uuid) { id in Map(IdOf, rows) }
  predicate Recorded(rows: seq<Row>, input: Input, id: Uuid) { Row(id, input.key, input.payload) in rows }

  /** The key is taken by a row with another payload. */
  predicate TakenByOther(rows: seq<Row>, input: Input) {
    exists r | r in rows :: r.key == input.key && r.payload != input.payload
  }

  /** The row with this key and payload, as the select after a skipped insert finds it. */
  function Find(rows: seq<Row>, input: Input): (r: Option<Uuid>)
    ensures r.Some? ==> Recorded(rows, input, r.value)
    ensures r.None? ==> forall id :: !Recorded(rows, input, id)
  {
    if rows == [] then None
    else if rows[0].key == input.key && rows[0].payload == input.payload then Some(rows[0].id)
    else
      assert forall id | Recorded(rows, input, id) :: Recorded(rows[1..], input, id);
      Find(rows[1..], input)
  }

  /** The key an uncommitted row of this call holds. */
  function HeldKey(c: Caller): Option<string> {
    if c.Inserted? || c.Published? || (c.Left? && c.holds) then Some(c.input.key) else None
  }

  /** The identifier this call may still commit. */
  function PendingId(c: Caller): Option<Uuid> {
    if c.Begun? || c.Inserted? || c.Published? || c.Left? then Some(c.id) else None
  }

  /** A call after its failure: finished, unless its transaction may still write. */
  function GivenUp(c: Caller): Caller
    requires !c.Idle?
  {
    if c.Begun? || c.Inserted? || c.Published? then Left(c.input, c.id, !c.Begun?, c.Published?)
    else Answered(c.input, Failed)
  }

  predicate Held(callers: seq<Caller>, key: string) {
    exists c | c in callers :: HeldKey(c) == Some(key)
  }

  function Put(s: State, c: nat, x: Caller): State
    requires c < |s.callers|
  {
    s.(callers := s.callers[c := x])
  }

  /** One statement of one call, or `None` when it cannot happen now. */
  function Step(s: State, e: Event): Option<State> {
    if e.caller >= |s.callers| then None
    else
      var (c, x) := (e.caller, s.callers[e.caller]);
      match e
      case Begin(_, input, id) =>
        if x.Idle? && id !in s.drawn then Some(Put(s, c, Begun(input, id)).(drawn := s.drawn + {id})) else None
      case Insert(_) =>
        if !x.Begun? || Held(s.callers, x.input.key) then None
        else if HasKey(s.rows, x.input.key) then Some(Put(s, c, Skipped(x.input, x.id)))
        else Some(Put(s, c, Inserted(x.input, x.id)))
      case Select(_) =>
        if !x.Skipped? then None
        else
          var found := Find(s.rows, x.input);
          Some(Put(s, c, if found.Some? then Matched(x.input, found.value) else Mismatched(x.input)))
      case Publish(_) =>
        if x.Inserted? then Some(Put(s, c, Published(x.input, x.id))) else None
      case Commit(_) =>
        if x.Published? then
          Some(Put(s, c, Committed(x.input, x.id)).(
            rows := s.rows + [Row(x.id, x.input.key, x.input.payload)], outbox := s.outbox + [x.id]))
        else if x.Matched? then Some(Put(s, c, Committed(x.input, x.id)))
        else None
      case Reply(_) =>
        if x.Committed? then Some(Put(s, c, Answered(x.input, Ok(x.id))))
        else if x.Mismatched? then Some(Put(s, c, Answered(x.input, Conflict)))
        else None
      case Fail(_) =>
        if x.Idle? || x.Answered? || x.Left? then None else Some(Put(s, c, GivenUp(x)))
      case Late(_) =>
        if !x.Left? then None
        else if x.commits then
          Some(Put(s, c, Answered(x.input, Failed)).(
            rows := s.rows + [Row(x.id, x.input.key, x.input.payload)], outbox := s.outbox + [x.id]))
        else if x.holds || Held(s.callers, x.input.key) then None
        else if HasKey(s.rows, x.input.key) then Some(Put(s, c, Answered(x.input, Failed)))
        else Some(Put(s, c, Left(x.input, x.id, true, false)))
      case Discard(_) =>
        if x.Left? then Some(Put(s, c, Answered(x.input, Failed))) else None
  }

  function Run(s: State, es: seq<Event>): Option<State>
    decreases |es|
  {
    if es == [] then Some(s)
    else
      var s' := Step(s, es[0]);
      if s'.None? then None else Run(s'.value, es[1..])
  }

  function Initial(callers: nat): State {
    State([], [], {}, seq(callers, i => Idle))
  }

  // ----- what every step keeps -----

  /** What is known about one call, whatever the others do. */
  predicate CallerOk(s: State, c: Caller) {
    match c
    case Idle => true
    case Begun(_, id) => id in s.drawn && !HasId(s.rows, id)
    case Inserted(i, id) => id in s.drawn && !HasId(s.rows, id) && !HasKey(s.rows, i.key)
    case Published(i, id) => id in s.drawn && !HasId(s.rows, id) && !HasKey(s.rows, i.key)
    case Skipped(i, _) => HasKey(s.rows, i.key)
    case Matched(i, id) => Recorded(s.rows, i, id)
    case Mismatched(i) => TakenByOther(s.rows, i)
    case Committed(i, id) => Recorded(s.rows, i, id)
    case Answered(i, Ok(id)) => Recorded(s.rows, i, id)
    case Answered(i, Conflict) => TakenByOther(s.rows, i)
    case Answered(_, Failed) => true
    case Left(i, id, holds, commits) =>
      id in s.drawn && !HasId(s.rows, id) && (holds ==> !HasKey(s.rows, i.key)) && (commits ==> holds)
  }

  /** Two calls never share an identifier they may commit, nor a key they hold. */
  predicate Apart(a: Caller, b: Caller) {
    && (PendingId(a).Some? ==> PendingId(a) != PendingId(b))
    && (HeldKey(a).Some? ==> HeldKey(a) != HeldKey(b))
  }

  /** One row per key and one outbox event per row, in the order of the commits. */
  ghost predicate StoreOk(s: State) {
    && NoDup(Map(KeyOf, s.rows))
    && NoDup(Map(IdOf, s.rows))
    && s.outbox == Map(IdOf, s.rows)
    && (forall r | r in s.rows :: r.id in s.drawn)
  }

  ghost predicate CallersOk(s: State) {
    && (forall c | 0 <= c < |s.callers| :: CallerOk(s, s.callers[c]))
    && (forall c, d | 0 <= c < d < |s.callers| :: Apart(s.callers[c], s.callers[d]))
  }

  ghost predicate Inv(s: State) {
    StoreOk(s) && CallersOk(s)
  }

  lemma PutKeeps(s: State, c: nat, x: Caller)
    requires CallersOk(s) && c < |s.callers| && CallerOk(s, x)
    requires forall d | 0 <= d < |s.callers| && d != c :: Apart(x, s.callers[d])
    ensures CallersOk(Put(s, c, x))
  {
    var s' := Put(s, c, x);
    forall d, e | 0 <= d < e < |s'.callers| ensures Apart(s'.callers[d], s'.callers[e]) {
      if d != c && e != c {
        assert Apart(s.callers[d], s.callers[e]);
      }
    }
    forall d | 0 <= d < |s'.callers| ensures CallerOk(s', s'.callers[d]) {
      assert CallerOk(s, s.callers[d]);
    }
  }

  /** Moving on without taking a new identifier or key keeps a call apart from the others. */
  lemma StaysApart(s: State, c: nat, x: Caller)
    requires CallersOk(s) && c < |s.callers|
    requires PendingId(x).Some? ==> PendingId(x) == PendingId(s.callers[c])
    requires HeldKey(x).Some? ==> HeldKey(x) == HeldKey(s.callers[c])
    ensures forall d | 0 <= d < |s.callers| && d != c :: Apart(x, s.callers[d])
  {
    forall d | 0 <= d < |s.callers| && d != c ensures Apart(x, s.callers[d]) {
      if d < c {
        assert Apart(s.callers[d], s.callers[c]);
      } else {
        assert Apart(s.callers[c], s.callers[d]);
      }
    }
  }

  lemma BeginKeeps(s: State, c: nat, input: Input, id: Uuid)
    requires Inv(s) && c < |s.callers| && id !in s.drawn
    ensures Inv(Put(s, c, Begun(input, id)).(drawn := s.drawn + {id}))
  {
    var t := s.(drawn := s.drawn + {id});
    forall d | 0 <= d < |t.callers| ensures CallerOk(t, t.callers[d]) {
      assert CallerOk(s, s.callers[d]);
    }
    forall d, e | 0 <= d < e < |t.callers| ensures Apart(t.callers[d], t.callers[e]) {
      assert Apart(s.callers[d], s.callers[e]);
    }
    forall d | 0 <= d < |t.callers| && d != c ensures Apart(Begun(input, id), t.callers[d]) {
      assert CallerOk(s, s.callers[d]);
    }
    if HasId(s.rows, id) {
      var r := MapInInverse(IdOf, s.rows, id);
    }
    PutKeeps(t, c, Begun(input, id));
  }

  /** A call that holds no key may take one that nobody holds. */
  lemma InsertKeeps(s: State, c: nat, x: Caller)
    requires Inv(s) && c < |s.callers| && CallerOk(s, x) && HeldKey(x).Some?
    requires PendingId(x) == PendingId(s.callers[c]) && !Held(s.callers, HeldKey(x).value)
    ensures Inv(Put(s, c, x))
  {
    StaysApart(s, c, s.callers[c]);
    forall d | 0 <= d < |s.callers| && d != c ensures Apart(x, s.callers[d]) {
      assert s.callers[d] in s.callers;
      assert Apart(s.callers[c], s.callers[d]);
    }
    PutKeeps(s, c, x);
  }

  lemma SelectFinds(s: State, i: Input)
    requires HasKey(s.rows, i.key) && Find(s.rows, i).None?
    ensures TakenByOther(s.rows, i)
  {
    var r := MapInInverse(KeyOf, s.rows, i.key);
    assert !Recorded(s.rows, i, r.id);
  }

  lemma RowsGrow(rows: seq<Row>, r: Row)
    ensures Map(KeyOf, rows + [r]) == Map(KeyOf, rows) + [r.key]
    ensures Map(IdOf, rows + [r]) == Map(IdOf, rows) + [r.id]
  {
  }

  /** A committed row is news to no call that is apart from the committing one. */
  lemma CommitKeepsCaller(s: State, s': State, r: Row, c: Caller)
    requires s'.rows == s.rows + [r] && s'.drawn == s.drawn && CallerOk(s, c)
    requires PendingId(c) != Some(r.id) && HeldKey(c) != Some(r.key)
    ensures CallerOk(s', c)
  {
    RowsGrow(s.rows, r);
    assert r in s'.rows;
    if c.Mismatched? || (c.Answered? && c.outcome == Conflict) {
      var other :| other in s.rows && other.key == c.input.key && other.payload != c.input.payload;
      assert other in s'.rows;
    }
  }

  /** A call that can commit a new row. */
  predicate Committing(c: Caller) { c.Published? || (c.Left? && c.commits) }

  lemma CommitKeeps(s: State, c: nat, x: Caller)
    requires Inv(s) && c < |s.callers| && Committing(s.callers[c])
    requires var (input, id) := (s.callers[c].input, s.callers[c].id); x == Committed(input, id) || x == Answered(input, Failed)
    ensures var (input, id) := (s.callers[c].input, s.callers[c].id);
            Inv(Put(s, c, x).(rows := s.rows + [Row(id, input.key, input.payload)], outbox := s.outbox + [id]))
  {
    var (input, id) := (s.callers[c].input, s.callers[c].id);
    var r := Row(id, input.key, input.payload);
    assert CallerOk(s, s.callers[c]);
    RowsGrow(s.rows, r);
    NoDupSnoc(Map(KeyOf, s.rows), r.key);
    NoDupSnoc(Map(IdOf, s.rows), r.id);
    StaysApart(s, c, s.callers[c]);
    var t := s.(rows := s.rows + [r], outbox := s.outbox + [id]);
    var s' := Put(t, c, x);
    forall d | 0 <= d < |s.callers| ensures CallerOk(s', s'.callers[d]) {
      if d != c {
        assert CallerOk(s, s.callers[d]) && Apart(s.callers[c], s.callers[d]);
        CommitKeepsCaller(s, s', r, s.callers[d]);
      }
    }
    forall d, e | 0 <= d < e < |s'.callers| ensures Apart(s'.callers[d], s'.callers[e]) {
      assert Apart(s.callers[d], s.callers[e]);
    }
  }

  lemma StepKeeps(s: State, e: Event)
    requires Inv(s) && Step(s, e).Some?
    ensures Inv(Step(s, e).value)
  {
    var (c, x) := (e.caller, s.callers[e.caller]);
    assert CallerOk(s, x);
    match e
    case Begin(_, input, id) =>
      BeginKeeps(s, c, input, id);
    case Insert(_) =>
      if HasKey(s.rows, x.input.key) {
        MoveKeeps(s, c, Skipped(x.input, x.id));
      } else {
        InsertKeeps(s, c, Inserted(x.input, x.id));
      }
    case Select(_) =>
      var found := Find(s.rows, x.input);
      if found.None? {
        SelectFinds(s, x.input);
      }
      MoveKeeps(s, c, if found.Some? then Matched(x.input, found.value) else Mismatched(x.input));
    case Publish(_) =>
      MoveKeeps(s, c, Published(x.input, x.id));
    case Commit(_) =>
      if x.Published? {
        CommitKeeps(s, c, Committed(x.input, x.id));
      } else {
        MoveKeeps(s, c, Committed(x.input, x.id));
      }
    case Reply(_) =>
      MoveKeeps(s, c, Answered(x.input, if x.Committed? then Ok(x.id) else Conflict));
    case Fail(_) =>
      MoveKeeps(s, c, GivenUp(x));
    case Late(_) =>
      LateKeeps(s, c);
    case Discard(_) =>
      MoveKeeps(s, c, Answered(x.input, Failed));
  }

  lemma LateKeeps(s: State, c: nat)
    requires Inv(s) && c < |s.callers| && Step(s, Late(c)).Some?
    ensures Inv(Step(s, Late(c)).value)
  {
    var x := s.callers[c];
    assert CallerOk(s, x);
    if x.commits {
      CommitKeeps(s, c, Answered(x.input, Failed));
    } else if HasKey(s.rows, x.input.key) {
      MoveKeeps(s, c, Answered(x.input, Failed));
    } else {
      InsertKeeps(s, c, Left(x.input, x.id, true, false));
    }
  }

  lemma MoveKeeps(s: State, c: nat, x: Caller)
    requires Inv(s) && c < |s.callers| && CallerOk(s, x)
    requires PendingId(x).Some? ==> PendingId(x) == PendingId(s.callers[c])
    requires HeldKey(x).Some? ==> HeldKey(x) == HeldKey(s.callers[c])
    ensures Inv(Put(s, c, x))
  {
    StaysApart(s, c, x);
    PutKeeps(s, c, x);
  }

  lemma {:induction false} RunKeeps(s: State, es: seq<Event>)
    requires Inv(s) && Run(s, es).Some?
    ensures Inv(Run(s, es).value)
    decreases |es|
  {
    if es != [] {
      StepKeeps(s, es[0]);
      RunKeeps(Step(s, es[0]).value, es[1..]);
    }
  }

  lemma InitialOk(n: nat)
    ensures Inv(Initial(n))
  {
  }

  lemma {:induction false} RunSplit(s: State, a: seq<Event>, b: seq<Event>)
    requires Run(s, a).Some?
    ensures Run(s, a + b) == Run(Run(s, a).value, b)
    decreases |a|
  {
    if a == [] {
      assert a + b == b;
    } else {
      RunSplit(Step(s, a[0]).value, a[1..], b);
      assert (a + b)[1..] == a[1..] + b;
    }
  }

  // ----- safety of whole runs -----

  /** The committed rows say why this call was answered as it was. */
  ghost predicate AnswerOk(rows: seq<Row>, c: Caller) {
    c.Answered? ==>
      match c.outcome
      case Ok(id) => Recorded(rows, c.input, id)
      case Conflict => HasKey(rows, c.input.key) && forall id :: !Recorded(rows, c.input, id)
      case Failed => true
  }

  /** Answers to two calls with one key agree: one identifier, one payload. */
  ghost predicate Agree(a: Caller, b: Caller) {
    a.Answered? && b.Answered? && a.input.key == b.input.key ==>
      && (a.outcome.Ok? && b.outcome.Ok? ==> a.outcome == b.outcome && a.input == b.input)
      && (a.outcome.Ok? && b.outcome.Conflict? ==> a.input != b.input)
  }

  lemma OneRowPerKey(s: State, a: Row, b: Row)
    requires StoreOk(s) && a in s.rows && b in s.rows && a.key == b.key
    ensures a == b
  {
    KeyInjective(KeyOf, s.rows, a, b);
  }

  lemma AnswerIsOk(s: State, c: nat)
    requires Inv(s) && c < |s.callers|
    ensures AnswerOk(s.rows, s.callers[c])
  {
    var x := s.callers[c];
    assert CallerOk(s, x);
    if x.Answered? && x.outcome == Conflict {
      var r :| r in s.rows && r.key == x.input.key && r.payload != x.input.payload;
      MapIn(KeyOf, s.rows, r);
      forall id ensures !Recorded(s.rows, x.input, id) {
        if Recorded(s.rows, x.input, id) {
          OneRowPerKey(s, r, Row(id, x.input.key, x.input.payload));
        }
      }
    }
  }

  lemma AnswersAgree(s: State, c: nat, d: nat)
    requires Inv(s) && c < |s.callers| && d < |s.callers|
    ensures Agree(s.callers[c], s.callers[d])
  {
    var (x, y) := (s.callers[c], s.callers[d]);
    AnswerIsOk(s, c);
    AnswerIsOk(s, d);
    if x.Answered? && y.Answered? && x.input.key == y.input.key && x.outcome.Ok? && y.outcome.Ok? {
      OneRowPerKey(s, Row(x.outcome.id, x.input.key, x.input.payload), Row(y.outcome.id, y.input.key, y.input.payload));
    }
  }

  /**
   * In every interleaving, with failures anywhere: one row per key, exactly one outbox event
   * per row and none without a row, and answers that agree with the rows and with each other.
   */
  lemma EveryRunIsSafe(n: nat, es: seq<Event>, s: State)
    requires Run(Initial(n), es) == Some(s)
    ensures NoDup(Map(KeyOf, s.rows))
    ensures s.outbox == Map(IdOf, s.rows) && NoDup(s.outbox)
    ensures forall c | 0 <= c < |s.callers| :: AnswerOk(s.rows, s.callers[c])
    ensures forall c, d | 0 <= c < |s.callers| && 0 <= d < |s.callers| :: Agree(s.callers[c], s.callers[d])
  {
    InitialOk(n);
    RunKeeps(Initial(n), es);
    forall c | 0 <= c < |s.callers| ensures AnswerOk(s.rows, s.callers[c]) {
      AnswerIsOk(s, c);
    }
    forall c, d | 0 <= c < |s.callers| && 0 <= d < |s.callers| ensures Agree(s.callers[c], s.callers[d]) {
      AnswersAgree(s, c, d);
    }
  }

  /** An answer stays, also the report of a failure before the transaction has ended. */
  predicate StaysAnswered(before: Caller, after: Caller) {
    && (before.Answered? ==> after == before)
    && (before.Left? ==> after == Answered(before.input, Failed) || (after.Left? && after.input == before.input))
  }

  /** Nothing that was committed or answered is ever taken back. */
  lemma {:induction false} NothingIsTakenBack(s: State, es: seq<Event>)
    requires Run(s, es).Some?
    ensures var s' := Run(s, es).value;
            && s.rows <= s'.rows && s.outbox <= s'.outbox && |s'.callers| == |s.callers|
            && forall c | 0 <= c < |s.callers| :: StaysAnswered(s.callers[c], s'.callers[c])
    decreases |es|
  {
    if es != [] {
      NothingIsTakenBack(Step(s, es[0]).value, es[1..]);
    }
  }

  // ----- every run is a sequence of atomic operations -----

  /** The atomic specification: a key is bound once. */
  type Book = map<string, (Uuid, Payload)>

  function Atomic(book: Book, input: Input, id: Uuid): (Book, Outcome) {
    if input.key !in book then (book[input.key := (id, input.payload)], Ok(id))
    else if book[input.key].1 == input.payload then (book, Ok(book[input.key].0))
    else (book, Conflict)
  }

  datatype Op = Op(caller: nat, input: Input, id: Uuid, outcome: Outcome)

  /** The operation a step stands for: a commit of a new row, late or not, or the read after a skipped insert. */
  function OpOf(s: State, e: Event): seq<Op> {
    if e.caller >= |s.callers| then []
    else
      var (c, x) := (e.caller, s.callers[e.caller]);
      if (e.Commit? && x.Published?) || (e.Late? && x.Left? && x.commits) then [Op(c, x.input, x.id, Ok(x.id))]
      else if e.Select? && x.Skipped? then
        var found := Find(s.rows, x.input);
        [Op(c, x.input, x.id, if found.Some? then Ok(found.value) else Conflict)]
      else []
  }

  function Log(s: State, es: seq<Event>): seq<Op>
    requires Run(s, es).Some?
    decreases |es|
  {
    if es == [] then [] else OpOf(s, es[0]) + Log(Step(s, es[0]).value, es[1..])
  }

  /** Performing the operations one at a time gives each the outcome it has in the log. */
  predicate Legal(book: Book, ops: seq<Op>)
    decreases |ops|
  {
    ops == [] ||
    (Atomic(book, ops[0].input, ops[0].id).1 == ops[0].outcome &&
     Legal(Atomic(book, ops[0].input, ops[0].id).0, ops[1..]))
  }

  function After(book: Book, ops: seq<Op>): Book
    decreases |ops|
  {
    if ops == [] then book else After(Atomic(book, ops[0].input, ops[0].id).0, ops[1..])
  }

  function BookOf(rows: seq<Row>): Book {
    if rows == [] then map[]
    else
      var last := rows[|rows| - 1];
      BookOf(rows[..|rows| - 1])[last.key := (last.id, last.payload)]
  }

  lemma {:induction false} BookKeys(rows: seq<Row>, key: string)
    ensures key in BookOf(rows) <==> HasKey(rows, key)
    ensures key in BookOf(rows) ==> Row(BookOf(rows)[key].0, key, BookOf(rows)[key].1) in rows
  {
    if rows != [] {
      var (rest, last) := (rows[..|rows| - 1], rows[|rows| - 1]);
      BookKeys(rest, key);
      assert rows == rest + [last];
      RowsGrow(rest, last);
      assert HasKey(rows, key) <==> HasKey(rest, key) || key == last.key;
      assert forall r | r in rest :: r in rows;
    }
  }

  lemma OneOp(book: Book, op: Op)
    ensures Legal(book, [op]) <==> Atomic(book, op.input, op.id).1 == op.outcome
    ensures After(book, [op]) == Atomic(book, op.input, op.id).0
  {
    assert [op][1..] == [];
  }

  lemma BookGrows(rows: seq<Row>, r: Row)
    ensures BookOf(rows + [r]) == BookOf(rows)[r.key := (r.id, r.payload)]
  {
    assert (rows + [r])[..|rows|] == rows;
  }

  /** The read after a skipped insert answers as the book does. */
  lemma SelectIsAtomic(s: State, input: Input, id: Uuid)
    requires StoreOk(s) && HasKey(s.rows, input.key)
    ensures var found := Find(s.rows, input);
            Atomic(BookOf(s.rows), input, id) == (BookOf(s.rows), if found.Some? then Ok(found.value) else Conflict)
  {
    BookKeys(s.rows, input.key);
    var (bound, found) := (BookOf(s.rows)[input.key], Find(s.rows, input));
    if found.Some? {
      OneRowPerKey(s, Row(found.value, input.key, input.payload), Row(bound.0, input.key, bound.1));
    } else {
      assert !Recorded(s.rows, input, bound.0);
    }
  }

  lemma CommitIsAtomic(s: State, c: nat)
    requires Inv(s) && c < |s.callers| && Committing(s.callers[c])
    ensures var (i, id) := (s.callers[c].input, s.callers[c].id);
            Atomic(BookOf(s.rows), i, id) == (BookOf(s.rows + [Row(id, i.key, i.payload)]), Ok(id))
  {
    var x := s.callers[c];
    assert CallerOk(s, x);
    BookKeys(s.rows, x.input.key);
    BookGrows(s.rows, Row(x.id, x.input.key, x.input.payload));
  }

  /** One step is one atomic operation on the book of committed rows, or none. */
  lemma StepIsAtomic(s: State, e: Event)
    requires Inv(s) && Step(s, e).Some?
    ensures Legal(BookOf(s.rows), OpOf(s, e))
    ensures After(BookOf(s.rows), OpOf(s, e)) == BookOf(Step(s, e).value.rows)
  {
    if OpOf(s, e) != [] {
      OneOp(BookOf(s.rows), OpOf(s, e)[0]);
      if e.Commit? || e.Late? {
        CommitIsAtomic(s, e.caller);
      } else {
        assert CallerOk(s, s.callers[e.caller]);
        SelectIsAtomic(s, s.callers[e.caller].input, s.callers[e.caller].id);
      }
    }
  }

  lemma {:induction false} LegalSplit(book: Book, a: seq<Op>, b: seq<Op>)
    ensures Legal(book, a + b) <==> Legal(book, a) && Legal(After(book, a), b)
    ensures After(book, a + b) == After(After(book, a), b)
    decreases |a|
  {
    if a == [] {
      assert a + b == b;
    } else {
      LegalSplit(Atomic(book, a[0].input, a[0].id).0, a[1..], b);
      assert (a + b)[1..] == a[1..] + b;
    }
  }

  lemma {:induction false} RunIsAtomic(s: State, es: seq<Event>)
    requires Inv(s) && Run(s, es).Some?
    ensures Legal(BookOf(s.rows), Log(s, es))
    ensures After(BookOf(s.rows), Log(s, es)) == BookOf(Run(s, es).value.rows)
    decreases |es|
  {
    if es != [] {
      var s' := Step(s, es[0]).value;
      StepIsAtomic(s, es[0]);
      StepKeeps(s, es[0]);
      RunIsAtomic(s', es[1..]);
      LegalSplit(BookOf(s.rows), OpOf(s, es[0]), Log(s', es[1..]));
    }
  }

  /** The operations of one caller. */
  function OpsBy(ops: seq<Op>, c: nat): seq<Op> {
    if ops == [] then [] else (if ops[0].caller == c then [ops[0]] else []) + OpsBy(ops[1..], c)
  }

  lemma OpsByHead(op: Op, rest: seq<Op>, c: nat)
    ensures OpsBy([op] + rest, c) == (if op.caller == c then [op] else []) + OpsBy(rest, c)
  {
    assert ([op] + rest)[1..] == rest;
  }

  lemma {:induction false} OpsBySplit(a: seq<Op>, b: seq<Op>, c: nat)
    ensures OpsBy(a + b, c) == OpsBy(a, c) + OpsBy(b, c)
  {
    if a == [] {
      assert a + b == b;
    } else {
      var rest := a[1..];
      assert a == [a[0]] + rest && a + b == [a[0]] + (rest + b);
      OpsByHead(a[0], rest, c);
      OpsByHead(a[0], rest + b, c);
      OpsBySplit(rest, b, c);
    }
  }

  ghost predicate One(mine: seq<Op>, input: Input, outcome: Outcome) {
    |mine| == 1 && mine[0].input == input && mine[0].outcome == outcome
  }

  /** What the operations of a call so far say about where the call is. */
  ghost predicate Explains(mine: seq<Op>, c: Caller) {
    match c
    case Matched(i, id) => One(mine, i, Ok(id))
    case Mismatched(i) => One(mine, i, Conflict)
    case Committed(i, id) => One(mine, i, Ok(id))
    case Answered(i, o) => if o.Failed? then |mine| <= 1 && forall op | op in mine :: op.input == i else One(mine, i, o)
    case _ => mine == []
  }

  lemma StepExplains(s: State, e: Event, c: nat, before: seq<Op>)
    requires Step(s, e).Some? && c < |s.callers| && Explains(before, s.callers[c])
    ensures Explains(before + OpsBy(OpOf(s, e), c), Step(s, e).value.callers[c])
  {
    if OpOf(s, e) != [] {
      assert OpOf(s, e)[1..] == [];
    }
    if e.caller != c || OpOf(s, e) == [] {
      assert before + OpsBy(OpOf(s, e), c) == before;
    } else {
      assert before + OpsBy(OpOf(s, e), c) == OpOf(s, e);
    }
  }

  lemma {:induction false} RunExplains(s: State, es: seq<Event>, c: nat, before: seq<Op>)
    requires Run(s, es).Some? && c < |s.callers| && Explains(before, s.callers[c])
    ensures |Run(s, es).value.callers| == |s.callers|
    ensures Explains(before + OpsBy(Log(s, es), c), Run(s, es).value.callers[c])
    decreases |es|
  {
    if es == [] {
      assert before + OpsBy(Log(s, es), c) == before;
    } else {
      var (s', now) := (Step(s, es[0]).value, OpOf(s, es[0]));
      StepExplains(s, es[0], c, before);
      RunExplains(s', es[1..], c, before + OpsBy(now, c));
      OpsBySplit(now, Log(s', es[1..]), c);
      assert before + OpsBy(now, c) + OpsBy(Log(s', es[1..]), c) == before + (OpsBy(now, c) + OpsBy(Log(s', es[1..]), c));
    }
  }

  /**
   * Every run, whatever fails, is a sequence of atomic operations that ends in the committed
   * rows: an answered call performed exactly one, with the answer it gave, and a failed call
   * performed at most one.
   */
  lemma Linearizable(n: nat, es: seq<Event>, s: State)
    requires Run(Initial(n), es) == Some(s)
    ensures Legal(map[], Log(Initial(n), es))
    ensures After(map[], Log(Initial(n), es)) == BookOf(s.rows)
    ensures |s.callers| == n
    ensures forall c | 0 <= c < n :: Explains(OpsBy(Log(Initial(n), es), c), s.callers[c])
  {
    InitialOk(n);
    RunIsAtomic(Initial(n), es);
    NothingIsTakenBack(Initial(n), es);
    forall c | 0 <= c < n ensures Explains(OpsBy(Log(Initial(n), es), c), s.callers[c]) {
      RunExplains(Initial(n), es, c, []);
      assert [] + OpsBy(Log(Initial(n), es), c) == OpsBy(Log(Initial(n), es), c);
    }
  }

  lemma LogHead(s: State, e: Event, rest: seq<Event>)
    requires Run(s, [e] + rest).Some?
    ensures Step(s, e).Some? && Run(Step(s, e).value, rest).Some?
    ensures Log(s, [e] + rest) == OpOf(s, e) + Log(Step(s, e).value, rest)
  {
    assert ([e] + rest)[1..] == rest;
  }

  lemma {:induction false} LogSplit(s: State, a: seq<Event>, b: seq<Event>, m: State)
    requires Run(s, a) == Some(m) && Run(m, b).Some?
    ensures Run(s, a + b).Some?
    ensures Log(s, a + b) == Log(s, a) + Log(m, b)
    decreases |a|
  {
    RunSplit(s, a, b);
    if a == [] {
      assert a + b == b;
    } else {
      var rest := a[1..];
      assert a == [a[0]] + rest && a + b == [a[0]] + (rest + b);
      LogHead(s, a[0], rest);
      LogHead(s, a[0], rest + b);
      LogSplit(Step(s, a[0]).value, rest, b, m);
      Assoc(OpOf(s, a[0]), Log(Step(s, a[0]).value, rest), Log(m, b));
    }
  }

  lemma Assoc<T>(a: seq<T>, b: seq<T>, c: seq<T>)
    ensures a + (b + c) == a + b + c
  {
  }

  /**
   * The order of operations respects real time: a call that had been answered, and whose
   * transaction had ended if it was answered with a failure, comes before one that had not begun.
   */
  lemma RealTimeOrder(n: nat, past: seq<Event>, future: seq<Event>, now: State, c: nat, d: nat)
    requires Run(Initial(n), past) == Some(now) && Run(now, future).Some?
    requires c < n && d < n && |now.callers| == n && now.callers[c].Answered? && now.callers[d].Idle?
    ensures Run(Initial(n), past + future).Some?
    ensures Log(Initial(n), past + future) == Log(Initial(n), past) + Log(now, future)
    ensures OpsBy(Log(now, future), c) == [] && OpsBy(Log(Initial(n), past), d) == []
  {
    LogSplit(Initial(n), past, future, now);
    Linearizable(n, past, now);
    Quiet(now, future, c);
  }

  lemma {:induction false} Quiet(s: State, es: seq<Event>, c: nat)
    requires Run(s, es).Some? && c < |s.callers| && s.callers[c].Answered?
    ensures OpsBy(Log(s, es), c) == []
    decreases |es|
  {
    if es != [] {
      var (s', now) := (Step(s, es[0]).value, OpOf(s, es[0]));
      Quiet(s', es[1..], c);
      if now != [] {
        assert now[1..] == [];
      }
      OpsBySplit(now, Log(s', es[1..]), c);
    }
  }

  /** A failure says less: the commit on its way may come after a call that began later. */
  lemma FailureIsNotFinal(input: Input, other: Input, id: Uuid, id': Uuid) returns (now: State)
    requires id != id'
    ensures Run(Initial(2), [Begin(0, input, id), Insert(0), Publish(0), Fail(0)]) == Some(now)
    ensures now.callers == [Left(input, id, true, true), Idle]
    ensures Run(now, [Begin(1, other, id'), Late(0)]).Some?
    ensures Log(now, [Begin(1, other, id'), Late(0)]) == [Op(0, input, id, Ok(id))]
  {
    var (s0, s1, s2, s3) := (Initial(2), Alone(Begun(input, id), {id}), Alone(Inserted(input, id), {id}), Alone(Published(input, id), {id}));
    now := Alone(Left(input, id, true, true), {id});
    assert s0.callers == [Idle, Idle] && s0 == Alone(Idle, {});
    AloneSteps(Idle, Begun(input, id), {});
    AloneSteps(Begun(input, id), Inserted(input, id), {id});
    AloneSteps(Inserted(input, id), Published(input, id), {id});
    AloneSteps(Published(input, id), now.callers[0], {id});
    assert {} + {id} == {id};
    OneStep(s0, Begin(0, input, id), [Insert(0), Publish(0), Fail(0)], s1);
    OneStep(s1, Insert(0), [Publish(0), Fail(0)], s2);
    OneStep(s2, Publish(0), [Fail(0)], s3);
    OneStep(s3, Fail(0), [], now);
    LateOp(now, input, other, id, id');
  }

  lemma LateOp(now: State, input: Input, other: Input, id: Uuid, id': Uuid)
    requires id != id' && now == Alone(Left(input, id, true, true), {id})
    ensures Run(now, [Begin(1, other, id'), Late(0)]).Some?
    ensures Log(now, [Begin(1, other, id'), Late(0)]) == [Op(0, input, id, Ok(id))]
  {
    var next := Step(now, Begin(1, other, id')).value;
    OneStep(now, Begin(1, other, id'), [Late(0)], next);
    OneStep(next, Late(0), [], Step(next, Late(0)).value);
  }

  /** An empty store with one call under way and one to come. */
  function Alone(x: Caller, drawn: set<Uuid>): State { State([], [], drawn, [x, Idle]) }

  lemma AloneSteps(x: Caller, y: Caller, drawn: set<Uuid>)
    ensures Put(Alone(x, drawn), 0, y) == Alone(y, drawn)
    ensures HeldKey(x).None? ==> forall key :: !Held([x, Idle], key)
  {
    assert [x, Idle][0 := y] == [y, Idle];
  }

  lemma OneStep(s: State, e: Event, rest: seq<Event>, next: State)
    requires Step(s, e) == Some(next)
    ensures Run(s, [e] + rest) == Run(next, rest)
    ensures Run(next, rest).Some? ==> Log(s, [e] + rest) == OpOf(s, e) + Log(next, rest)
  {
    assert ([e] + rest)[1..] == rest;
  }

  // ----- retries -----

  lemma {:induction false} BookKeepsBindings(book: Book, ops: seq<Op>, key: string)
    requires key in book
    ensures key in After(book, ops) && After(book, ops)[key] == book[key]
    decreases |ops|
  {
    if ops != [] {
      BookKeepsBindings(Atomic(book, ops[0].input, ops[0].id).0, ops[1..], key);
    }
  }

  /**
   * A call whose answer was lost may be repeated: when its operation took effect, every answer
   * a retry with the same input can get is the identifier the first attempt recorded.
   */
  lemma RetryAfterLostAnswer(n: nat, es: seq<Event>, s: State, c: nat, d: nat, op: Op)
    requires Run(Initial(n), es) == Some(s) && c < n && d < n
    requires op in OpsBy(Log(Initial(n), es), c) && op.outcome.Ok?
    requires |s.callers| == n && s.callers[d].Answered? && s.callers[d].input == op.input
    ensures s.callers[d].outcome.Failed? || s.callers[d].outcome == op.outcome
    ensures Recorded(s.rows, op.input, op.outcome.id)
  {
    var ops := Log(Initial(n), es);
    Linearizable(n, es, s);
    OpsByIn(ops, c, op);
    var i :| 0 <= i < |ops| && ops[i] == op;
    LoggedIsRecorded(n, es, s, i);
    EveryRunIsSafe(n, es, s);
    InitialOk(n);
    RunKeeps(Initial(n), es);
    if s.callers[d].outcome.Ok? {
      OneRowPerKey(s, Row(op.outcome.id, op.input.key, op.input.payload),
                   Row(s.callers[d].outcome.id, op.input.key, op.input.payload));
    }
    assert AnswerOk(s.rows, s.callers[d]);
  }

  lemma {:induction false} OpsByIn(ops: seq<Op>, c: nat, op: Op)
    requires op in OpsBy(ops, c)
    ensures op in ops
  {
    if op !in OpsBy(ops[1..], c) {
      assert op == ops[0];
    } else {
      OpsByIn(ops[1..], c, op);
      assert op in ops[1..];
    }
  }

  lemma LoggedIsRecorded(n: nat, es: seq<Event>, s: State, i: nat)
    requires Run(Initial(n), es) == Some(s)
    requires i < |Log(Initial(n), es)| && Log(Initial(n), es)[i].outcome.Ok?
    ensures var op := Log(Initial(n), es)[i]; Recorded(s.rows, op.input, op.outcome.id)
  {
    var ops := Log(Initial(n), es);
    Linearizable(n, es, s);
    var (a, b, op) := (ops[..i], ops[i..], ops[i]);
    assert ops == a + b;
    LegalSplit(map[], a, b);
    var after := Atomic(After(map[], a), op.input, op.id).0;
    BookKeepsBindings(after, b[1..], op.input.key);
    BookKeys(s.rows, op.input.key);
  }

  // ----- progress -----

  /** The most steps this call still takes. */
  function Rank(c: Caller): nat {
    match c
    case Idle => 5
    case Begun(_, _) => 4
    case Inserted(_, _) => 3
    case Published(_, _) => 2
    case Skipped(_, _) => 3
    case Matched(_, _) => 2
    case Mismatched(_) => 1
    case Committed(_, _) => 1
    case Answered(_, _) => 0
    case Left(_, _, holds, _) => if holds then 1 else 2
  }

  function TotalRank(callers: seq<Caller>): nat {
    if callers == [] then 0 else Rank(callers[0]) + TotalRank(callers[1..])
  }

  lemma {:induction false} RankAfter(callers: seq<Caller>, c: nat, x: Caller)
    requires c < |callers|
    ensures TotalRank(callers[c := x]) == TotalRank(callers) - Rank(callers[c]) + Rank(x)
  {
    var after := callers[c := x];
    if c == 0 {
      assert after[1..] == callers[1..];
    } else {
      assert after[1..] == callers[1..][c - 1 := x];
      RankAfter(callers[1..], c - 1, x);
    }
  }

  lemma {:induction false} InitialRank(n: nat)
    ensures TotalRank(seq(n, i => Idle)) == 5 * n
  {
    if n != 0 {
      InitialRank(n - 1);
      assert seq(n, i => Idle)[1..] == seq(n - 1, i => Idle);
    }
  }

  lemma {:induction false} RunSpendsRank(s: State, es: seq<Event>)
    requires Run(s, es).Some?
    ensures TotalRank(Run(s, es).value.callers) + |es| <= TotalRank(s.callers)
    decreases |es|
  {
    if es != [] {
      StepSpendsRank(s, es[0]);
      RunSpendsRank(Step(s, es[0]).value, es[1..]);
    }
  }

  lemma StepSpendsRank(s: State, e: Event)
    requires Step(s, e).Some?
    ensures TotalRank(Step(s, e).value.callers) < TotalRank(s.callers)
  {
    var after := Step(s, e).value.callers;
    assert after == s.callers[e.caller := after[e.caller]];
    RankAfter(s.callers, e.caller, after[e.caller]);
  }

  /** No run goes on forever. */
  lemma RunsAreShort(n: nat, es: seq<Event>)
    requires Run(Initial(n), es).Some?
    ensures |es| <= 5 * n
  {
    RunSpendsRank(Initial(n), es);
    InitialRank(n);
  }

  /** While a call is unanswered some call can go on without failing: waiting for a key never deadlocks. */
  lemma NoDeadlock(s: State, c: nat) returns (e: Event)
    requires c < |s.callers| && !s.callers[c].Idle? && !s.callers[c].Answered?
    ensures !e.Fail? && !e.Begin? && Step(s, e).Some?
  {
    match s.callers[c]
    case Begun(i, _) =>
      if Held(s.callers, i.key) {
        var h :| h in s.callers && HeldKey(h) == Some(i.key);
        var d :| 0 <= d < |s.callers| && s.callers[d] == h;
        e := if h.Inserted? then Publish(d) else if h.Published? then Commit(d) else Discard(d);
      } else {
        e := Insert(c);
      }
    case Inserted(_, _) => e := Publish(c);
    case Published(_, _) => e := Commit(c);
    case Skipped(_, _) => e := Select(c);
    case Matched(_, _) => e := Commit(c);
    case Mismatched(_) => e := Reply(c);
    case Committed(_, _) => e := Reply(c);
    case Left(_, _, _, _) => e := Discard(c);
  }

  lemma AnswerExplained(n: nat, es: seq<Event>, s: State, c: nat)
    requires Run(Initial(n), es) == Some(s) && c < |s.callers| && s.callers[c].Answered?
    ensures var x := s.callers[c];
            && (x.outcome.Ok? ==> Recorded(s.rows, x.input, x.outcome.id) && x.outcome.id in s.outbox)
            && (x.outcome.Conflict? ==> HasKey(s.rows, x.input.key) && forall id :: !Recorded(s.rows, x.input, id))
  {
    EveryRunIsSafe(n, es, s);
    var x := s.callers[c];
    assert AnswerOk(s.rows, x);
    if x.outcome.Ok? {
      MapIn(IdOf, s.rows, Row(x.outcome.id, x.input.key, x.input.payload));
    }
  }

  /** Answered so, or reported as failed before the transaction has ended. */
  // ----- one call among the others -----

  /** What other calls do meanwhile: those of the events that are theirs and can happen. */
  function Meanwhile(s: State, c: nat, events: seq<Event>): (s': State)
    ensures |s'.callers| == |s.callers| && (c < |s.callers| ==> s'.callers[c] == s.callers[c])
    ensures s.rows <= s'.rows
    ensures Inv(s) ==> Inv(s')
    decreases |events|
  {
    if events == [] then s
    else
      var next := Step(s, events[0]);
      if events[0].caller == c || next.None? then Meanwhile(s, c, events[1..])
      else
        StepKeepsIfOk(s, events[0]);
        Meanwhile(next.value, c, events[1..])
  }

  lemma StepKeepsIfOk(s: State, e: Event)
    requires Step(s, e).Some?
    ensures Inv(s) ==> Inv(Step(s, e).value)
  {
    if Inv(s) {
      StepKeeps(s, e);
    }
  }

  /** The others go on for as long as one of them holds the key. */
  function Waited(s: State, c: nat, key: string, others: seq<seq<Event>>): (s': State)
    ensures |s'.callers| == |s.callers| && (c < |s.callers| ==> s'.callers[c] == s.callers[c])
    ensures s.rows <= s'.rows
    ensures Inv(s) ==> Inv(s')
    decreases |others|
  {
    if others == [] || !Held(s.callers, key) then s else Waited(Meanwhile(s, c, others[0]), c, key, others[1..])
  }

  /** What the insert of a call that begins now will find. */
  function AtInsert(s: State, c: nat, input: Input, id: Uuid, others: seq<seq<Event>>): State
    requires c < |s.callers|
  {
    Waited(Put(s, c, Begun(input, id)).(drawn := s.drawn + {id}), c, input.key, others)
  }

  /**
   * The answer of a call whose insert finds these rows, when its connection breaks at statement
   * `broken`: the insert, the one after it, the commit or rollback, the answer to the commit.
   */
  ghost predicate Answers(rows: seq<Row>, input: Input, id: Uuid, broken: nat, outcome: Outcome) {
    if broken <= 2 then outcome == Failed
    else if TakenByOther(rows, input) then outcome == Conflict
    else if broken == 3 then outcome == Failed
    else if HasKey(rows, input.key) then outcome.Ok? && Recorded(rows, input, outcome.id)
    else outcome == Ok(id)
  }

  /** Where that leaves the call: a transaction that broke before its end is left to the database. */
  function Leaves(rows: seq<Row>, input: Input, id: Uuid, broken: nat, outcome: Outcome): Caller {
    if broken == 0 || (!HasKey(rows, input.key) && broken <= 2) then Left(input, id, broken > 0, broken == 2)
    else Answered(input, outcome)
  }

  ghost predicate Ends(rows: seq<Row>, input: Input, id: Uuid, broken: nat, outcome: Outcome, last: Caller) {
    Answers(rows, input, id, broken, outcome) && last == Leaves(rows, input, id, broken, outcome)
  }

  /** Before the commit: the call has ended already, or stands where the rows of its insert have led it. */
  ghost predicate Written(rows: seq<Row>, input: Input, id: Uuid, broken: nat, outcome: Option<Outcome>, last: Caller) {
    if outcome.Some? then Ends(rows, input, id, broken, outcome.value, last)
    else
      && broken > 1 && !TakenByOther(rows, input)
      && if HasKey(rows, input.key) then last.Matched? && last.input == input && Recorded(rows, input, last.id) else last == Published(input, id)
  }

  lemma NothingTaken(rows: seq<Row>, input: Input)
    requires !HasKey(rows, input.key)
    ensures !TakenByOther(rows, input)
  {
    forall r | r in rows ensures r.key != input.key {
      MapIn(KeyOf, rows, r);
    }
  }

  /** A row once there decides what is found later under its key. */
  lemma FoundLater(s: State, rows: seq<Row>, input: Input)
    requires Inv(s) && rows <= s.rows && HasKey(rows, input.key)
    ensures TakenByOther(s.rows, input) <==> TakenByOther(rows, input)
    ensures forall id :: Recorded(s.rows, input, id) <==> Recorded(rows, input, id)
    ensures (exists id :: Recorded(rows, input, id)) <==> !TakenByOther(rows, input)
  {
    var r := MapInInverse(KeyOf, rows, input.key);
    forall x | x in s.rows && x.key == input.key ensures x == r {
      OneRowPerKey(s, x, r);
    }
    if r.payload == input.payload {
      assert Recorded(rows, input, r.id);
    }
  }

  /** The select finds the row of its payload that the insert was skipped for, or nothing when another payload has the key. */
  lemma SelectDecides(s: State, rows: seq<Row>, input: Input)
    requires Inv(s) && rows <= s.rows && HasKey(rows, input.key)
    ensures Find(s.rows, input).None? <==> TakenByOther(rows, input)
    ensures Find(s.rows, input).Some? ==> Recorded(rows, input, Find(s.rows, input).value)
  {
    FoundLater(s, rows, input);
  }

  // ----- the procedure itself -----

  /** The database as one call sees it: its own statements, with those of other calls in between. */
  class Database {
    var rows: seq<Row>
    var outbox: seq<Uuid>
    var drawn: set<Uuid>
    var callers: seq<Caller>
    /** Everything that has happened since the store was empty. */
    ghost var history: seq<Event>
    ghost const size: nat

    ghost function Now(): State
      reads this
    {
      State(rows, outbox, drawn, callers)
    }

    ghost predicate Valid()
      reads this
    {
      Run(Initial(size), history) == Some(Now())
    }

    constructor (n: nat)
      ensures Valid() && size == n && Now() == Initial(n)
    {
      rows, outbox, drawn, callers := [], [], {}, seq(n, i => Idle);
      history := [];
      size := n;
    }

    /** What the ghost history gains with one more event. */
    ghost method Happened(before: State, e: Event)
      requires Run(Initial(size), history) == Some(before) && Step(before, e) == Some(Now())
      modifies this`history
      ensures Valid() && history == old(history) + [e]
    {
      RunSplit(Initial(size), history, [e]);
      assert Run(before, [e]) == Some(Now());
      history := history + [e];
    }

    method BeginTransaction(c: nat, input: Input, id: Uuid)
      requires Valid() && c < |callers| && callers[c].Idle? && id !in drawn
      modifies this
      ensures Valid() && Step(old(Now()), Begin(c, input, id)) == Some(Now())
      ensures history == old(history) + [Begin(c, input, id)]
    {
      ghost var before := Now();
      drawn := drawn + {id};
      callers := callers[c := Begun(input, id)];
      Happened(before, Begin(c, input, id));
    }

    /** `INSERT ... ON CONFLICT DO NOTHING RETURNING`, once no other call holds the key. */
    method InsertRow(c: nat) returns (inserted: bool)
      requires Valid() && c < |callers| && callers[c].Begun? && !Held(callers, callers[c].input.key)
      modifies this
      ensures Valid() && Step(old(Now()), Insert(c)) == Some(Now())
      ensures history == old(history) + [Insert(c)]
      ensures inserted <==> callers[c].Inserted?
    {
      ghost var before := Now();
      var x := callers[c];
      inserted := !HasKey(rows, x.input.key);
      if inserted {
        callers := callers[c := Inserted(x.input, x.id)];
      } else {
        callers := callers[c := Skipped(x.input, x.id)];
      }
      Happened(before, Insert(c));
    }

    /** `SELECT` of the row with this key and this payload. */
    method SelectRow(c: nat) returns (found: Option<Uuid>)
      requires Valid() && c < |callers| && callers[c].Skipped?
      modifies this
      ensures Valid() && Step(old(Now()), Select(c)) == Some(Now())
      ensures history == old(history) + [Select(c)]
      ensures found == Find(old(rows), old(callers[c].input))
      ensures found.Some? ==> callers[c] == Matched(old(callers[c].input), found.value)
      ensures found.None? ==> callers[c] == Mismatched(old(callers[c].input))
    {
      ghost var before := Now();
      var x := callers[c];
      found := Find(rows, x.input);
      if found.Some? {
        callers := callers[c := Matched(x.input, found.value)];
      } else {
        callers := callers[c := Mismatched(x.input)];
      }
      Happened(before, Select(c));
    }

    method InsertEvent(c: nat)
      requires Valid() && c < |callers| && callers[c].Inserted?
      modifies this
      ensures Valid() && Step(old(Now()), Publish(c)) == Some(Now())
      ensures history == old(history) + [Publish(c)]
    {
      ghost var before := Now();
      callers := callers[c := Published(callers[c].input, callers[c].id)];
      Happened(before, Publish(c));
    }

    /** Row and event become visible together, or nothing does. */
    method CommitTransaction(c: nat)
      requires Valid() && c < |callers| && (callers[c].Published? || callers[c].Matched?)
      modifies this
      ensures Valid() && Step(old(Now()), Commit(c)) == Some(Now())
      ensures history == old(history) + [Commit(c)]
    {
      ghost var before := Now();
      var x := callers[c];
      if x.Published? {
        rows := rows + [Row(x.id, x.input.key, x.input.payload)];
        outbox := outbox + [x.id];
      }
      callers := callers[c := Committed(x.input, x.id)];
      Happened(before, Commit(c));
    }

    method Answer(c: nat) returns (outcome: Outcome)
      requires Valid() && c < |callers| && (callers[c].Committed? || callers[c].Mismatched?)
      modifies this
      ensures Valid() && Step(old(Now()), Reply(c)) == Some(Now())
      ensures history == old(history) + [Reply(c)]
      ensures callers[c] == Answered(old(callers[c].input), outcome)
    {
      ghost var before := Now();
      var x := callers[c];
      outcome := if x.Committed? then Ok(x.id) else Conflict;
      callers := callers[c := Answered(x.input, outcome)];
      Happened(before, Reply(c));
    }

    /** An error: an open transaction is left to the database, a finished one stays. */
    method Abort(c: nat) returns (outcome: Outcome)
      requires Valid() && c < |callers| && !callers[c].Idle? && !callers[c].Answered? && !callers[c].Left?
      modifies this
      ensures Valid() && Step(old(Now()), Fail(c)) == Some(Now())
      ensures history == old(history) + [Fail(c)]
      ensures callers == old(callers)[c := GivenUp(old(callers[c]))] && rows == old(rows) && outbox == old(outbox)
      ensures outcome == Failed
    {
      ghost var before := Now();
      outcome := Failed;
      callers := callers[c := GivenUp(callers[c])];
      Happened(before, Fail(c));
    }

    /** Statements of other calls, as far as they can happen. */
    method Interfere(c: nat, events: seq<Event>)
      requires Valid() && c < |callers|
      modifies this
      ensures Valid() && old(history) <= history
      ensures Now() == Meanwhile(old(Now()), c, events)
    {
      for i := 0 to |events|
        invariant Valid() && old(history) <= history
        invariant Meanwhile(old(Now()), c, events) == Meanwhile(Now(), c, events[i..])
      {
        assert events[i..][0] == events[i] && events[i..][1..] == events[i + 1..];
        var before := State(rows, outbox, drawn, callers);
        var after := Step(before, events[i]);
        if events[i].caller != c && after.Some? {
          rows, outbox, drawn, callers := after.value.rows, after.value.outbox, after.value.drawn, after.value.callers;
          Happened(before, events[i]);
        }
      }
      assert events[|events|..] == [];
    }

    /** Waits until no other call holds the key, as long as the others still move. */
    method AwaitKey(c: nat, key: string, others: seq<seq<Event>>) returns (free: bool)
      requires Valid() && c < |callers|
      modifies this
      ensures Valid() && old(history) <= history
      ensures Now() == Waited(old(Now()), c, key, others)
      ensures free <==> !Held(callers, key)
    {
      var i := 0;
      while Held(callers, key) && i < |others|
        invariant i <= |others| && Valid() && old(history) <= history && c < |callers|
        invariant Waited(old(Now()), c, key, others) == Waited(Now(), c, key, others[i..])
        decreases |others| - i
      {
        assert others[i..][0] == others[i] && others[i..][1..] == others[i + 1..];
        Interfere(c, others[i]);
        i := i + 1;
      }
      free := !Held(callers, key);
    }

    /** From the insert to the commit; an outcome when the connection breaks before it or another payload is found. */
    method WriteOrMatch(c: nat, inserted: seq<Event>, written: seq<Event>, broken: nat) returns (outcome: Option<Outcome>)
      requires Valid() && c < |callers| && callers[c].Begun? && !Held(callers, callers[c].input.key) && broken > 0
      modifies this
      ensures Valid() && old(history) <= history && |callers| == old(|callers|)
      ensures Written(old(rows), old(callers[c].input), old(callers[c].id), broken, outcome, callers[c])
      ensures old(rows) <= rows
    {
      outcome := None;
      ghost var (was, x) := (rows, callers[c]);
      var wrote := InsertRow(c);
      Interfere(c, inserted);
      if broken == 1 {
        var failed := Abort(c);
        return Some(failed);
      }
      outcome := PublishOrMatch(c, written, broken, was, x.id);
    }

    /** Another payload holds the key: a conflict, unless the rollback itself breaks. */
    method RollBack(c: nat, broken: nat) returns (outcome: Outcome)
      requires Valid() && c < |callers| && callers[c].Mismatched?
      modifies this
      ensures Valid() && old(history) <= history && |callers| == old(|callers|) && rows == old(rows)
      ensures outcome == if broken == 2 then Failed else Conflict
      ensures callers[c] == Answered(old(callers[c].input), outcome)
    {
      if broken == 2 {
        outcome := Abort(c);
      } else {
        outcome := Answer(c);
      }
    }

    /** The event of an inserted row, or the read after a skipped insert. */
    method PublishOrMatch(c: nat, written: seq<Event>, broken: nat, ghost was: seq<Row>, ghost id: Uuid) returns (outcome: Option<Outcome>)
      requires Valid() && c < |callers| && (callers[c].Inserted? || callers[c].Skipped?) && broken > 1 && was <= rows
      requires if HasKey(was, callers[c].input.key) then callers[c].Skipped? else callers[c] == Inserted(callers[c].input, id)
      modifies this
      ensures Valid() && old(history) <= history && |callers| == old(|callers|)
      ensures Written(was, old(callers[c].input), id, broken, outcome, callers[c])
      ensures old(rows) <= rows
    {
      outcome := None;
      if callers[c].Inserted? {
        NothingTaken(was, callers[c].input);
        InsertEvent(c);
        Interfere(c, written);
      } else {
        outcome := MatchOrRollBack(c, written, broken, was, id);
      }
    }

    method MatchOrRollBack(c: nat, written: seq<Event>, broken: nat, ghost was: seq<Row>, ghost id: Uuid) returns (outcome: Option<Outcome>)
      requires Valid() && c < |callers| && callers[c].Skipped? && broken > 1 && was <= rows && HasKey(was, callers[c].input.key)
      modifies this
      ensures Valid() && old(history) <= history && |callers| == old(|callers|)
      ensures Written(was, old(callers[c].input), id, broken, outcome, callers[c])
      ensures old(rows) <= rows
    {
      outcome := None;
      ghost var input := callers[c].input;
      IsSafe();
      SelectDecides(Now(), was, input);
      var existing := SelectRow(c);
      Interfere(c, written);
      if existing.None? {
        var answer := RollBack(c, broken);
        outcome := Some(answer);
      }
    }

    /** From the commit to the answer, which may be lost after the commit. */
    method CommitOrFail(c: nat, after: seq<Event>, broken: nat) returns (outcome: Outcome)
      requires Valid() && c < |callers| && (callers[c].Published? || callers[c].Matched?)
      modifies this
      ensures Valid() && old(history) <= history && |callers| == old(|callers|)
      ensures outcome == if broken == 2 || broken == 3 then Failed else Ok(old(callers[c].id))
      ensures callers[c] == if broken == 2 then GivenUp(old(callers[c])) else Answered(old(callers[c].input), outcome)
    {
      if broken == 2 {
        outcome := Abort(c);
        return;
      }
      ghost var x := callers[c];
      CommitTransaction(c);
      Interfere(c, after);
      assert callers[c] == Committed(x.input, x.id);
      if broken == 3 {
        outcome := Abort(c);
      } else {
        outcome := Answer(c);
      }
    }

    lemma IsSafe()
      requires Valid()
      ensures Inv(Now())
    {
      InitialOk(size);
      RunKeeps(Initial(size), history);
    }

    /**
     * One call from start to answer, among any statements of other calls while it waits for the
     * key (`others`), after its insert, after its second statement and after its commit, with the
     * connection breaking at any statement (`broken`). It fails when the key stays held or the
     * connection breaks at a statement that it reaches, and otherwise answers what the rows its
     * insert finds demand. An `Ok` answer names the one committed row of this key and payload
     * and its outbox event; a conflict is another payload's key.
     */
    method RecordAction(
      c: nat, input: Input, id: Uuid,
      others: seq<seq<Event>>, inserted: seq<Event>, written: seq<Event>, committed: seq<Event>, broken: nat)
      returns (outcome: Outcome)
      requires Valid() && c < |callers| && callers[c].Idle? && id !in drawn
      modifies this
      ensures Valid() && old(history) <= history && |callers| == old(|callers|)
      ensures var found := AtInsert(old(Now()), c, input, id, others);
              Ends(found.rows, input, id, if Held(found.callers, input.key) then 0 else broken, outcome, callers[c])
      ensures outcome.Ok? ==> Recorded(rows, input, outcome.id) && outcome.id in outbox
      ensures outcome.Conflict? ==> HasKey(rows, input.key) && forall i :: !Recorded(rows, input, i)
    {
      BeginTransaction(c, input, id);
      var free := AwaitKey(c, input.key, others);
      if broken == 0 || !free {
        outcome := Abort(c);
        return;
      }
      var early := WriteOrMatch(c, inserted, written, broken);
      if early.Some? {
        outcome := early.value;
      } else {
        outcome := CommitOrFail(c, committed, broken);
      }
      if callers[c].Answered? {
        AnswerExplained(size, history, Now(), c);
      }
    }
  }
}
