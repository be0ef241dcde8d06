/** Whenever the database answers, the details of an attack are logged as if its id had been known from the start. */
module LogSurfnetRuns {
  import opened LogSurfnet
  import opened Sequences

  /** attackID: the number the database gives, or will give, to the attack that an accept opens. */
  datatype Event =
    | Accept(k: Key, listed: bool, attackID: nat)
    | Dialogue(k: Key, host: nat, name: string)
    | Shellcode(k: Key, host: nat, name: string)
    | Close(k: Key)
    | Success(k: Key, attackID: nat)
    | Failure(k: Key)

  datatype Open = Logged(attackID: nat) | Ignored

  /**
   * The logger, and around it: the open sockets, the keys whose id is still awaited, the key each attack was accepted
   * on, and what would have been logged for each attack had its id been known at once.
   */
  datatype World = World(
    logger: State,
    open: map<Key, Open>,
    pending: map<Key, nat>,
    owner: map<nat, Key>,
    details: map<nat, seq<Detail>>,
    severity: map<nat, int>)

  const Start := World(State(map[], []), map[], map[], map[], map[], map[])

  /** Sockets open and close in turn, have keys of their own while open or awaited, and ids are never given twice. */
  predicate Enabled(w: World, e: Event) {
    match e
    case Accept(k, listed, id) =>
      k !in w.open && k !in w.pending && (listed ==> id > 0 && id !in w.owner)
    case Dialogue(k, _, _) => k in w.open
    case Shellcode(k, _, _) => k in w.open
    case Close(k) => k in w.open
    case Success(k, id) => k in w.pending && w.pending[k] == id
    case Failure(k) => k in w.pending
  }

  function Log(s: State, e: Event): State {
    match e
    case Accept(k, listed, _) => if listed then AfterAccept(s, k) else s
    case Dialogue(k, host, name) => AfterDialogue(s, k, host, name)
    case Shellcode(k, host, name) => AfterShellcode(s, k, host, name)
    case Close(k) => AfterClose(s, k)
    case Success(k, id) => AfterSuccess(s, k, id)
    case Failure(k) => AfterFailure(s, k)
  }

  function DetailsOf(w: World, id: nat): seq<Detail> {
    if id in w.details then w.details[id] else []
  }

  /**
   * The logger takes the event, and the reference notes what belongs to the attack of the socket. An attack whose query
   * fails is forgotten, and its socket ignored from then on.
   */
  function Step(w: World, e: Event): World
    requires Enabled(w, e)
  {
    var w1 := w.(logger := Log(w.logger, e));
    match e
    case Accept(k, listed, id) =>
      if !listed then w1.(open := w.open[k := Ignored])
      else w1.(open := w.open[k := Logged(id)], pending := w.pending[k := id], owner := w.owner[id := k],
               details := w.details[id := []], severity := w.severity[id := AS_POSSIBLE])
    case Dialogue(k, host, name) =>
      if w.open[k].Ignored? then w1
      else
        var id := w.open[k].attackID;
        w1.(details := w.details[id := DetailsOf(w, id) + [Detail(host, DT_DIALOGUE_NAME, name)]],
            severity := w.severity[id := AS_DEFINITELY])
    case Shellcode(k, host, name) =>
      if w.open[k].Ignored? then w1
      else
        var id := w.open[k].attackID;
        w1.(details := w.details[id := DetailsOf(w, id) + [Detail(host, DT_SHELLCODEHANDLER_NAME, name)]])
    case Close(k) => w1.(open := w.open - {k})
    case Success(k, id) => w1.(pending := w.pending - {k})
    case Failure(k) =>
      var id := w.pending[k];
      w1.(open := if k in w.open then w.open[k := Ignored] else w.open, pending := w.pending - {k},
          owner := w.owner - {id}, details := w.details - {id}, severity := w.severity - {id})
  }

  // ---------------------------------------------------------------- what the queries say of one attack

  function DetailOf(q: Query, id: nat): seq<Detail> {
    if q.DetailAdd? && q.attackID == id then [q.detail] else []
  }

  function DetailsFor(queries: seq<Query>, id: nat): seq<Detail> {
    if queries == [] then [] else DetailOf(queries[0], id) + DetailsFor(queries[1..], id)
  }

  /** The severity the database ends up with: the newest update counts. */
  function SeverityFor(queries: seq<Query>, id: nat): int {
    if queries == [] then AS_POSSIBLE
    else
      var q := queries[|queries|-1];
      if q.UpdateSeverity? && q.attackID == id then q.severity else SeverityFor(queries[..|queries|-1], id)
  }

  lemma {:induction false} DetailsAppend(a: seq<Query>, b: seq<Query>, id: nat)
    ensures DetailsFor(a + b, id) == DetailsFor(a, id) + DetailsFor(b, id)
  {
    if a == [] {
      assert a + b == b;
    } else {
      assert (a + b)[1..] == a[1..] + b;
      DetailsAppend(a[1..], b, id);
    }
  }

  lemma OneMore(queries: seq<Query>, q: Query, id: nat)
    ensures DetailsFor(queries + [q], id) == DetailsFor(queries, id) + DetailOf(q, id)
    ensures SeverityFor(queries + [q], id)
         == if q.UpdateSeverity? && q.attackID == id then q.severity else SeverityFor(queries, id)
  {
    DetailsAppend(queries, [q], id);
    assert DetailsFor([q], id) == DetailOf(q, id) + [] == DetailOf(q, id);
    assert (queries + [q])[..|queries|] == queries;
  }

  lemma {:induction false} InsertsDetails(n: nat, details: seq<Detail>, id: nat)
    ensures DetailsFor(Inserts(n, details), id) == if n == id then details else []
    decreases |details|
  {
    if details != [] {
      InsertsDetails(n, details[1..], id);
    }
  }

  lemma {:induction false} InsertsSeverity(queries: seq<Query>, n: nat, details: seq<Detail>, id: nat)
    ensures SeverityFor(queries + Inserts(n, details), id) == SeverityFor(queries, id)
    decreases |details|
  {
    if details == [] {
      assert queries + Inserts(n, details) == queries;
    } else {
      var q := DetailAdd(n, details[0]);
      assert queries + Inserts(n, details) == queries + [q] + Inserts(n, details[1..]);
      InsertsSeverity(queries + [q], n, details[1..], id);
      OneMore(queries, q, id);
    }
  }

  lemma InsertsFor(queries: seq<Query>, n: nat, details: seq<Detail>, id: nat)
    ensures DetailsFor(queries + Inserts(n, details), id) == DetailsFor(queries, id) + if n == id then details else []
    ensures SeverityFor(queries + Inserts(n, details), id) == SeverityFor(queries, id)
  {
    DetailsAppend(queries, Inserts(n, details), id);
    InsertsDetails(n, details, id);
    InsertsSeverity(queries, n, details, id);
  }

  // ---------------------------------------------------------------- the invariant

  /** An entry left behind when the id of an attack arrived after its socket had closed without details. */
  predicate Leaked(w: World, k: Key, c: Context) {
    && c.details == [] && !c.closed && c.severity == -1
    && c.attackID > 0 && c.attackID in w.owner && w.owner[c.attackID] == k
  }

  /** What the tracker holds under a key whose id is awaited. */
  predicate PendingInv(w: World, k: Key)
    requires k in w.pending
  {
    var id := w.pending[k];
    && id > 0 && id in w.owner && w.owner[id] == k && id in w.details && id in w.severity
    && (k in w.open ==> w.open[k] == Logged(id))
    && (k in w.logger.tracker <==> k in w.open || w.details[id] != [])
    && (k in w.logger.tracker ==>
          w.logger.tracker[k]
          == Context(0, w.details[id], k !in w.open, if w.severity[id] == AS_DEFINITELY then AS_DEFINITELY else -1))
  }

  /** And under one whose id is known, or that has none. */
  predicate SettledInv(w: World, k: Key) {
    if k in w.open && w.open[k].Logged? then
      var id := w.open[k].attackID;
      && id > 0 && id in w.owner && w.owner[id] == k
      && k in w.logger.tracker
      && w.logger.tracker[k].attackID == id && w.logger.tracker[k].details == [] && !w.logger.tracker[k].closed
    else k in w.logger.tracker ==> Leaked(w, k, w.logger.tracker[k])
  }

  predicate KeyInv(w: World, k: Key) {
    if k in w.pending then PendingInv(w, k) else SettledInv(w, k)
  }

  predicate Awaited(w: World, id: nat) {
    id in w.owner && w.owner[id] in w.pending && w.pending[w.owner[id]] == id
  }

  /** The queries for an attack are those of the reference once its id has arrived, and none before. */
  predicate Exact(w: World, id: nat) {
    && id in w.details && id in w.severity
    && DetailsFor(w.logger.queries, id) == (if Awaited(w, id) then [] else w.details[id])
    && SeverityFor(w.logger.queries, id) == (if Awaited(w, id) then AS_POSSIBLE else w.severity[id])
  }

  predicate RefInv(w: World, id: nat) {
    && id in w.details && id in w.severity
    && w.severity[id] in {AS_POSSIBLE, AS_DEFINITELY}
    && (w.details[id] == [] ==> w.severity[id] == AS_POSSIBLE)
  }

  predicate Unheard(queries: seq<Query>, id: nat) {
    DetailsFor(queries, id) == [] && SeverityFor(queries, id) == AS_POSSIBLE
  }

  ghost predicate ExactNow(w: World) {
    forall id :: id in w.owner ==> Exact(w, id)
  }

  ghost predicate Inv(w: World) {
    && ExactNow(w)
    && (forall k: Key :: KeyInv(w, k))
    && (forall id :: id in w.owner ==> RefInv(w, id))
    && (forall id :: id !in w.owner ==> Unheard(w.logger.queries, id))
  }

  /** Keys that an event is not about keep what is said of them. */
  lemma OtherKeys(w: World, w': World, k: Key)
    requires forall k': Key :: KeyInv(w, k')
    requires forall j: Key :: j != k ==>
      && (j in w'.open <==> j in w.open) && (j in w.open ==> w'.open[j] == w.open[j])
      && (j in w'.pending <==> j in w.pending) && (j in w.pending ==> w'.pending[j] == w.pending[j])
      && (j in w'.logger.tracker <==> j in w.logger.tracker)
      && (j in w.logger.tracker ==> w'.logger.tracker[j] == w.logger.tracker[j])
    requires forall id :: id in w.owner && w.owner[id] != k ==>
      && id in w'.owner && w'.owner[id] == w.owner[id]
      && (id in w.details ==> id in w'.details && w'.details[id] == w.details[id])
      && (id in w.severity ==> id in w'.severity && w'.severity[id] == w.severity[id])
    ensures forall j: Key :: j != k ==> KeyInv(w', j)
  {
    forall j: Key | j != k ensures KeyInv(w', j) {
      assert KeyInv(w, j);
    }
  }

  lemma AcceptIgnoredInv(w: World, k: Key, id: nat)
    requires Inv(w) && Enabled(w, Accept(k, false, id))
    ensures Inv(Step(w, Accept(k, false, id)))
  {
    var w' := Step(w, Accept(k, false, id));
    OtherKeys(w, w', k);
    assert KeyInv(w, k);
    assert KeyInv(w', k);
    forall i | i in w'.owner ensures Exact(w', i) && RefInv(w', i) {
      assert Exact(w, i) && RefInv(w, i);
    }
  }

  lemma AcceptQueries(queries: seq<Query>, k: Key, i: nat)
    ensures DetailsFor(queries + [AttackAdd(k)], i) == DetailsFor(queries, i)
    ensures SeverityFor(queries + [AttackAdd(k)], i) == SeverityFor(queries, i)
  {
    OneMore(queries, AttackAdd(k), i);
    assert DetailsFor(queries, i) + [] == DetailsFor(queries, i);
  }

  lemma AcceptLoggedInv(w: World, k: Key, id: nat)
    requires Inv(w) && Enabled(w, Accept(k, true, id))
    ensures Inv(Step(w, Accept(k, true, id)))
  {
    var w' := Step(w, Accept(k, true, id));
    OtherKeys(w, w', k);
    assert KeyInv(w, k);
    assert KeyInv(w', k);
    assert Unheard(w.logger.queries, id);
    forall i | i in w'.owner ensures Exact(w', i) && RefInv(w', i) {
      AcceptQueries(w.logger.queries, k, i);
      if i != id {
        assert Exact(w, i) && RefInv(w, i);
      }
    }
    forall i | i !in w'.owner ensures Unheard(w'.logger.queries, i) {
      AcceptQueries(w.logger.queries, k, i);
      assert Unheard(w.logger.queries, i);
    }
  }

  lemma CloseInv(w: World, k: Key)
    requires Inv(w) && Enabled(w, Close(k))
    ensures Inv(Step(w, Close(k)))
  {
    var w' := Step(w, Close(k));
    OtherKeys(w, w', k);
    assert KeyInv(w, k);
    assert KeyInv(w', k);
    forall i | i in w'.owner ensures Exact(w', i) && RefInv(w', i) {
      assert Exact(w, i) && RefInv(w, i);
    }
  }

  /** The backlog becomes queries for its own attack only. */
  lemma SuccessQueries(s: State, k: Key, id: nat, i: nat)
    ensures var c, queries := At(s.tracker, k), AfterSuccess(s, k, id).queries;
            && DetailsFor(queries, i) == DetailsFor(s.queries, i) + (if i == id then c.details else [])
            && SeverityFor(queries, i) == if i == id && c.severity != -1 then c.severity else SeverityFor(s.queries, i)
  {
    var c := At(s.tracker, k);
    var q1 := s.queries + Inserts(id, c.details);
    InsertsFor(s.queries, id, c.details, i);
    if c.severity != -1 {
      OneMore(q1, UpdateSeverity(id, c.severity), i);
      assert DetailsFor(q1, i) + [] == DetailsFor(q1, i);
    } else {
      assert q1 + [] == q1;
    }
  }

  lemma SuccessInv(w: World, k: Key, id: nat)
    requires Inv(w) && Enabled(w, Success(k, id))
    ensures Inv(Step(w, Success(k, id)))
  {
    var w' := Step(w, Success(k, id));
    OtherKeys(w, w', k);
    assert KeyInv(w, k) && RefInv(w, id);
    assert At(w.logger.tracker, k).details == w.details[id];
    assert KeyInv(w', k);
    forall i | i in w'.owner ensures Exact(w', i) && RefInv(w', i) {
      SuccessQueries(w.logger, k, id, i);
      assert Exact(w, i) && RefInv(w, i);
    }
    forall i | i !in w'.owner ensures Unheard(w'.logger.queries, i) {
      SuccessQueries(w.logger, k, id, i);
      assert Unheard(w.logger.queries, i);
    }
  }

  /** A failed query takes back the attack, of which no query spoke. */
  lemma FailureInv(w: World, k: Key)
    requires Inv(w) && Enabled(w, Failure(k))
    ensures Inv(Step(w, Failure(k)))
  {
    var w', id := Step(w, Failure(k)), w.pending[k];
    assert KeyInv(w, k) && Exact(w, id);
    OtherKeys(w, w', k);
    assert KeyInv(w', k);
    forall i | i in w'.owner ensures Exact(w', i) && RefInv(w', i) {
      assert Exact(w, i) && RefInv(w, i);
    }
  }

  /** An event of a socket that is not logged, but whose key still has an entry from an earlier attack. */
  predicate Misfiled(w: World, e: Event)
    requires Enabled(w, e)
  {
    (e.Dialogue? || e.Shellcode?) && w.open[e.k].Ignored? && e.k in w.logger.tracker
  }

  /** The detail an event brings. */
  function DetailBy(e: Event): Detail
    requires e.Dialogue? || e.Shellcode?
  {
    Detail(e.host, if e.Dialogue? then DT_DIALOGUE_NAME else DT_SHELLCODEHANDLER_NAME, e.name)
  }

  lemma SeverityQueries(queries: seq<Query>, id: nat, i: nat)
    ensures var queries' := queries + [UpdateSeverity(id, AS_DEFINITELY)];
            && DetailsFor(queries', i) == DetailsFor(queries, i)
            && SeverityFor(queries', i) == if i == id then AS_DEFINITELY else SeverityFor(queries, i)
  {
    OneMore(queries, UpdateSeverity(id, AS_DEFINITELY), i);
    assert DetailsFor(queries, i) + [] == DetailsFor(queries, i);
  }

  /** A report for a tracked socket whose id is known is put into queries at once. */
  lemma ReportQueries(w: World, e: Event, id: nat, i: nat)
    requires Enabled(w, e) && (e.Dialogue? || e.Shellcode?)
    requires e.k in w.logger.tracker && w.logger.tracker[e.k].attackID == id > 0
    ensures Log(w.logger, e).tracker == w.logger.tracker
    ensures DetailsFor(Log(w.logger, e).queries, i)
         == DetailsFor(w.logger.queries, i) + if i == id then [DetailBy(e)] else []
    ensures SeverityFor(Log(w.logger, e).queries, i)
         == if i == id && e.Dialogue? then AS_DEFINITELY else SeverityFor(w.logger.queries, i)
  {
    var q, queries := DetailAdd(id, DetailBy(e)), w.logger.queries;
    var queries' := queries + [q];
    OneMore(queries, q, i);
    if e.Dialogue? {
      SeverityQueries(queries', id, i);
      assert Log(w.logger, e).queries == queries' + [UpdateSeverity(id, AS_DEFINITELY)];
    } else {
      assert Log(w.logger, e).queries == queries';
    }
  }

  lemma ReportKnownInv(w: World, e: Event)
    requires Inv(w) && Enabled(w, e) && (e.Dialogue? || e.Shellcode?)
    requires w.open[e.k].Logged? && e.k !in w.pending
    ensures Inv(Step(w, e))
  {
    var w', k := Step(w, e), e.k;
    var id := w.open[k].attackID;
    assert KeyInv(w, k) && Exact(w, id) && RefInv(w, id);
    forall i ensures DetailsFor(w'.logger.queries, i)
                  == DetailsFor(w.logger.queries, i) + (if i == id then [DetailBy(e)] else [])
               && SeverityFor(w'.logger.queries, i)
                  == (if i == id && e.Dialogue? then AS_DEFINITELY else SeverityFor(w.logger.queries, i))
               && w'.logger.tracker == w.logger.tracker
    {
      ReportQueries(w, e, id, i);
    }
    OtherKeys(w, w', k);
    assert KeyInv(w', k);
    forall i | i in w'.owner ensures Exact(w', i) && RefInv(w', i) {
      assert Exact(w, i) && RefInv(w, i);
    }
    forall i | i !in w'.owner ensures Unheard(w'.logger.queries, i) {
      assert Unheard(w.logger.queries, i);
    }
  }

  lemma ReportPendingInv(w: World, e: Event)
    requires Inv(w) && Enabled(w, e) && (e.Dialogue? || e.Shellcode?)
    requires w.open[e.k].Logged? && e.k in w.pending
    ensures Inv(Step(w, e))
  {
    var w', k := Step(w, e), e.k;
    var id := w.open[k].attackID;
    assert KeyInv(w, k) && Exact(w, id) && RefInv(w, id);
    OtherKeys(w, w', k);
    assert KeyInv(w', k);
    forall i | i in w'.owner ensures Exact(w', i) && RefInv(w', i) {
      assert Exact(w, i) && RefInv(w, i);
    }
  }

  lemma StepInv(w: World, e: Event)
    requires Inv(w) && Enabled(w, e) && !Misfiled(w, e)
    ensures Inv(Step(w, e))
  {
    match e
    case Accept(k, listed, id) =>
      if listed {
        AcceptLoggedInv(w, k, id);
      } else {
        AcceptIgnoredInv(w, k, id);
      }
    case Close(k) => CloseInv(w, k);
    case Success(k, id) => SuccessInv(w, k, id);
    case Failure(k) => FailureInv(w, k);
    case _ =>
      if w.open[e.k].Logged? {
        if e.k in w.pending {
          ReportPendingInv(w, e);
        } else {
          ReportKnownInv(w, e);
        }
      } else {
        assert Step(w, e) == w;
      }
  }

  /** A misfiled detail ends up in an attack that has nothing to do with it. */
  lemma MisfiledBreaks(w: World, e: Event)
    requires Inv(w) && Enabled(w, e) && Misfiled(w, e)
    ensures !ExactNow(Step(w, e))
  {
    var k := e.k;
    assert KeyInv(w, k);
    var id := w.logger.tracker[k].attackID;
    assert Exact(w, id);
    ReportQueries(w, e, id, id);
    assert |DetailsFor(Step(w, e).logger.queries, id)| == |w.details[id]| + 1;
    assert !Exact(Step(w, e), id);
  }

  // ---------------------------------------------------------------- runs

  predicate AllEnabled(w: World, events: seq<Event>)
    decreases |events|
  {
    events == [] || (Enabled(w, events[0]) && AllEnabled(Step(w, events[0]), events[1..]))
  }

  predicate NoneMisfiled(w: World, events: seq<Event>)
    requires AllEnabled(w, events)
    decreases |events|
  {
    events == [] || (!Misfiled(w, events[0]) && NoneMisfiled(Step(w, events[0]), events[1..]))
  }

  ghost predicate AlwaysExact(w: World, events: seq<Event>)
    requires AllEnabled(w, events)
    decreases |events|
  {
    ExactNow(w) && (events != [] ==> AlwaysExact(Step(w, events[0]), events[1..]))
  }

  lemma {:induction false} ExactIff(w: World, events: seq<Event>)
    requires Inv(w) && AllEnabled(w, events)
    ensures AlwaysExact(w, events) <==> NoneMisfiled(w, events)
    decreases |events|
  {
    if events != [] {
      var w' := Step(w, events[0]);
      if Misfiled(w, events[0]) {
        MisfiledBreaks(w, events[0]);
        assert !AlwaysExact(w', events[1..]);
      } else {
        StepInv(w, events[0]);
        ExactIff(w', events[1..]);
      }
    }
  }

  /**
   * Whenever the ids arrive, the details and the severity logged for each attack are at all times those that would
   * have been logged with the id known at once, or none while the id is awaited. This holds exactly for the runs in
   * which no event of an ignored socket meets an entry that an earlier attack left under its key.
   */
  lemma ArrivalDoesNotMatter(events: seq<Event>)
    requires AllEnabled(Start, events)
    ensures AlwaysExact(Start, events) <==> NoneMisfiled(Start, events)
  {
    assert Inv(Start);
    ExactIff(Start, events);
  }

  predicate AllListed(events: seq<Event>) {
    forall i :: 0 <= i < |events| && events[i].Accept? ==> events[i].listed
  }

  /** Sockets that are not logged, as their query failed, have nothing left in the tracker. */
  predicate Followed(w: World, k: Key) {
    k in w.open ==> w.open[k].Logged? || (k !in w.logger.tracker && k !in w.pending)
  }

  lemma FollowedStep(w: World, e: Event, k: Key)
    requires Enabled(w, e) && (e.Accept? ==> e.listed) && Followed(w, k)
    ensures Followed(Step(w, e), k)
  {
  }

  /** A logger that takes every port never misfiles. */
  lemma {:induction false} AnyPortExact(w: World, events: seq<Event>)
    requires AllEnabled(w, events) && AllListed(events)
    requires forall k: Key :: Followed(w, k)
    ensures NoneMisfiled(w, events)
    decreases |events|
  {
    if events != [] {
      assert AllListed(events[1..]) by {
        assert forall i :: 0 <= i < |events| - 1 ==> events[1..][i] == events[i + 1];
      }
      forall k: Key ensures Followed(Step(w, events[0]), k) {
        FollowedStep(w, events[0], k);
      }
      assert Followed(w, events[0].k);
      AnyPortExact(Step(w, events[0]), events[1..]);
    }
  }

  /** The shortest way to a misfiled detail: the socket's key was used by an attack that closed before its id came. */
  lemma MisfiledExample(k: Key, host: nat, name: string)
    ensures var events := [Accept(k, true, 1), Close(k), Success(k, 1), Accept(k, false, 0), Dialogue(k, host, name)];
            AllEnabled(Start, events) && !NoneMisfiled(Start, events)
  {
    var events := [Accept(k, true, 1), Close(k), Success(k, 1), Accept(k, false, 0), Dialogue(k, host, name)];
    var w1 := Step(Start, events[0]);
    var w2 := Step(w1, events[1]);
    var w3 := Step(w2, events[2]);
    var w4 := Step(w3, events[3]);
    assert events[4..][1..] == [];
    assert AllEnabled(Step(w4, events[4]), events[4..][1..]);
    assert AllEnabled(w4, events[4..]) && !NoneMisfiled(w4, events[4..]);
    assert events[3..][1..] == events[4..] && AllEnabled(w3, events[3..]) && !NoneMisfiled(w3, events[3..]);
    assert events[2..][1..] == events[3..] && AllEnabled(w2, events[2..]) && !NoneMisfiled(w2, events[2..]);
    assert events[1..][1..] == events[2..] && AllEnabled(w1, events[1..]) && !NoneMisfiled(w1, events[1..]);
  }

  /** Two attacks under one key: the first closes and the second reports before any id is known. */
  function TwoUnderOneKey(k: Key, host: nat, first: string, second: string): State {
    var s1 := Log(Log(Log(Start.logger, Accept(k, true, 1)), Shellcode(k, host, first)), Close(k));
    Log(Log(s1, Accept(k, true, 2)), Shellcode(k, host, second))
  }

  lemma FirstReport(k: Key, host: nat, first: string)
    ensures Log(Log(Log(Start.logger, Accept(k, true, 1)), Shellcode(k, host, first)), Close(k))
         == State(map[k := Context(0, [Detail(host, DT_SHELLCODEHANDLER_NAME, first)], true, -1)], [AttackAdd(k)])
  {
    var d1, s0 := Detail(host, DT_SHELLCODEHANDLER_NAME, first), Log(Start.logger, Accept(k, true, 1));
    assert [] + [AttackAdd(k)] == [AttackAdd(k)] && [] + [d1] == [d1];
    assert s0 == State(map[k := NewContext], [AttackAdd(k)]);
    assert Log(Log(s0, Shellcode(k, host, first)), Close(k)).tracker == map[k := Context(0, [d1], true, -1)];
  }

  lemma BothReports(k: Key, host: nat, first: string, second: string, d1: Detail, d2: Detail)
    requires d1 == Detail(host, DT_SHELLCODEHANDLER_NAME, first) && d2 == Detail(host, DT_SHELLCODEHANDLER_NAME, second)
    ensures TwoUnderOneKey(k, host, first, second)
         == State(map[k := Context(0, [d1, d2], true, -1)], [AttackAdd(k), AttackAdd(k)])
  {
    FirstReport(k, host, first);
    assert [AttackAdd(k)] + [AttackAdd(k)] == [AttackAdd(k), AttackAdd(k)] && [d1] + [d2] == [d1, d2];
    assert TwoUnderOneKey(k, host, first, second).tracker == map[k := Context(0, [d1, d2], true, -1)];
  }

  lemma NothingFor(k: Key, id: nat)
    ensures DetailsFor([AttackAdd(k), AttackAdd(k)], id) == []
  {
    assert [AttackAdd(k), AttackAdd(k)][1..] == [AttackAdd(k)] && [AttackAdd(k)][1..] == [];
    assert DetailsFor([AttackAdd(k)], id) == [] + [] == [];
  }

  /** Were a key used again while an id is awaited for it, the first id would take the details of both attacks. */
  lemma ReusedKeyExample(k: Key, host: nat, first: string, second: string)
    ensures DetailsFor(AfterSuccess(TwoUnderOneKey(k, host, first, second), k, 1).queries, 1)
         == [Detail(host, DT_SHELLCODEHANDLER_NAME, first), Detail(host, DT_SHELLCODEHANDLER_NAME, second)]
  {
    var d1, d2 := Detail(host, DT_SHELLCODEHANDLER_NAME, first), Detail(host, DT_SHELLCODEHANDLER_NAME, second);
    var s := TwoUnderOneKey(k, host, first, second);
    BothReports(k, host, first, second, d1, d2);
    NothingFor(k, 1);
    SuccessQueries(s, k, 1, 1);
    assert [] + [d1, d2] == [d1, d2];
  }

  // ---------------------------------------------------------------- attacks

  /** The attacks that the database was told of. */
  function Adds(queries: seq<Query>): seq<Key> {
    if queries == [] then [] else (if queries[0].AttackAdd? then [queries[0].key] else []) + Adds(queries[1..])
  }

  /** The connections that were to be logged. */
  function ListedKeys(events: seq<Event>): seq<Key> {
    if events == [] then []
    else (if events[0].Accept? && events[0].listed then [events[0].k] else []) + ListedKeys(events[1..])
  }

  lemma {:induction false} AddsAppend(a: seq<Query>, b: seq<Query>)
    ensures Adds(a + b) == Adds(a) + Adds(b)
  {
    if a == [] {
      assert a + b == b && Adds(a) + Adds(b) == Adds(b);
    } else {
      var first := if a[0].AttackAdd? then [a[0].key] else [];
      assert (a + b)[0] == a[0] && (a + b)[1..] == a[1..] + b;
      AddsAppend(a[1..], b);
      Regroup(first, Adds(a[1..]), Adds(b));
    }
  }

  lemma OneAdd(q: Query)
    ensures Adds([q]) == if q.AttackAdd? then [q.key] else []
  {
    assert [q][1..] == [];
  }

  lemma {:induction false} InsertsAddNothing(id: nat, details: seq<Detail>)
    ensures Adds(Inserts(id, details)) == []
    decreases |details|
  {
    if details != [] {
      InsertsAddNothing(id, details[1..]);
    }
  }

  /** What is handed to the database, besides what was. */
  lemma NewQueries(s: State, e: Event) returns (queries: seq<Query>)
    ensures Log(s, e).queries == s.queries + queries
    ensures Adds(queries) == if e.Accept? && e.listed then [e.k] else []
  {
    var s' := Log(s, e);
    if e.Accept? && e.listed {
      queries := [AttackAdd(e.k)];
      OneAdd(AttackAdd(e.k));
    } else if e.Success? {
      var c := At(s.tracker, e.k);
      var last := if c.severity != -1 then [UpdateSeverity(e.attackID, c.severity)] else [];
      queries := Inserts(e.attackID, c.details) + last;
      assert s'.queries == s.queries + Inserts(e.attackID, c.details) + last;
      InsertsAddNothing(e.attackID, c.details);
      AddsAppend(Inserts(e.attackID, c.details), last);
      OneAdd(UpdateSeverity(e.attackID, c.severity));
    } else {
      queries := s'.queries[|s.queries|..];
      NoAdds(s, e);
    }
  }

  lemma NoAdds(s: State, e: Event)
    requires !e.Success? && !(e.Accept? && e.listed)
    ensures |Log(s, e).queries| >= |s.queries|
    ensures var queries := Log(s, e).queries[|s.queries|..];
            Log(s, e).queries == s.queries + queries && Adds(queries) == []
  {
    var s' := Log(s, e);
    var queries := s'.queries[|s.queries|..];
    if queries != [] {
      var id := s.tracker[e.k].attackID;
      ReportAdds(id, DetailBy(e));
      if e.Shellcode? {
        assert queries == [DetailAdd(id, DetailBy(e))];
      } else {
        assert queries == [DetailAdd(id, DetailBy(e))] + [UpdateSeverity(id, AS_DEFINITELY)];
      }
    }
  }

  lemma ReportAdds(id: nat, d: Detail)
    ensures Adds([DetailAdd(id, d)]) == [] && Adds([DetailAdd(id, d)] + [UpdateSeverity(id, AS_DEFINITELY)]) == []
  {
    AddsAppend([DetailAdd(id, d)], [UpdateSeverity(id, AS_DEFINITELY)]);
    OneAdd(DetailAdd(id, d));
    OneAdd(UpdateSeverity(id, AS_DEFINITELY));
  }

  function LogAll(s: State, events: seq<Event>): State
    decreases |events|
  {
    if events == [] then s else LogAll(Log(s, events[0]), events[1..])
  }

  /** Over every run, exactly the listed connections are handed to the database as attacks, in their order. */
  lemma {:induction false} AttacksSent(s: State, events: seq<Event>)
    ensures Adds(LogAll(s, events).queries) == Adds(s.queries) + ListedKeys(events)
    decreases |events|
  {
    if events == [] {
      assert Adds(s.queries) + [] == Adds(s.queries);
    } else {
      var queries := NewQueries(s, events[0]);
      AddsAppend(s.queries, queries);
      AttacksSent(Log(s, events[0]), events[1..]);
      Regroup(Adds(s.queries), Adds(queries), ListedKeys(events[1..]));
    }
  }
}
