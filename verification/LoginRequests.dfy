/** One-shot login requests: creates and consumes in any interleaving, each locked database block one step. */
module LoginRequests {
  import opened Text
  import opened PythonTime

  /** Ten minutes, in microseconds. */
  const TTL := 600_000_000

  /** A row of oidc_requests; the state is its primary key. */
  datatype Request = Request(verifier: string, redirect: string, expiresAt: string)

  type Table = map<string, Request>

  // ---------------------------------------------------------------- the statements

  /** DELETE … WHERE expires_at < now, compared as text. */
  function Swept(rows: Table, now: int): Table {
    map s | s in rows && !Less(rows[s].expiresAt, ToIso(now)) :: rows[s]
  }

  /** The judgment after the row is gone: late once the clock has passed the expiry. */
  predicate IsLate(r: Request, clock: int) {
    match FromIso(r.expiresAt) case None => true case Some(t) => clock > t
  }

  // ---------------------------------------------------------------- the world

  /** A create between its clock reading and its INSERT, or a consume between its locked block and its clock reading. */
  datatype Flow = Stamped(redirect: string, now: int) | SweptAt(redirect: string, now: int) | Taken(state: string, row: Request)

  /** What a request was created with, and the clock reading it started from. */
  datatype Login = Login(redirect: string, verifier: string, start: int)

  datatype Grant = Grant(state: string, row: Request, at: int)

  /** A consume that found no row; `known` and `used` tell whether the state had been created, and taken, by then. */
  datatype Miss = Miss(state: string, at: int, known: bool, used: bool)

  /**
   * Kept for the record: `created`, every state inserted with what it was created with; `taken`, the states selected and deleted;
   * `granted`, the consumes that returned a request; `missed`, those that found no row.
   */
  datatype World = World(clock: int, rows: Table, flows: map<nat, Flow>,
                         created: map<string, Login>, taken: set<string>, granted: seq<Grant>, missed: seq<Miss>)

  function Start(clock: int): World { World(clock, map[], map[], map[], {}, [], []) }

  datatype Action =
    | Tick(now: int)
    | Begin(id: nat, redirect: string)
    | Sweep(id: nat)
    | Insert(id: nat, state: string, verifier: string)
    | Take(id: nat, state: string)
    | Judge(id: nat)
    | Drop(id: nat)

  predicate Enabled(w: World, a: Action) {
    match a
    case Tick(now) => w.clock <= now && IsDatetime(now)
    case Begin(id, _) => id !in w.flows && IsDatetime(w.clock) && IsDatetime(w.clock + TTL)
    case Sweep(id) => id in w.flows && w.flows[id].Stamped?
    case Insert(id, state, _) => id in w.flows && w.flows[id].SweptAt? && state !in w.created
    case Take(id, _) => id !in w.flows
    case Judge(id) => id in w.flows && w.flows[id].Taken?
    case Drop(id) => id in w.flows
  }

  function Next(w: World, a: Action): World
    requires Enabled(w, a)
  {
    match a
    case Tick(now) => w.(clock := now)
    case Begin(id, redirect) => w.(flows := w.flows[id := Stamped(redirect, w.clock)])
    case Sweep(id) =>
      var f := w.flows[id];
      w.(rows := Swept(w.rows, f.now), flows := w.flows[id := SweptAt(f.redirect, f.now)])
    case Insert(id, state, verifier) =>
      var f := w.flows[id];
      w.(rows := w.rows[state := Request(verifier, f.redirect, ToIso(f.now + TTL))], created := w.created[state := Login(f.redirect, verifier, f.now)],
         flows := w.flows - {id})
    case Take(id, state) =>
      if state !in w.rows then w.(missed := w.missed + [Miss(state, w.clock, state in w.created, state in w.taken)])
      else w.(rows := w.rows - {state}, taken := w.taken + {state}, flows := w.flows[id := Taken(state, w.rows[state])])
    case Judge(id) =>
      var f := w.flows[id];
      var w' := w.(flows := w.flows - {id});
      if IsLate(f.row, w.clock) then w' else w'.(granted := w.granted + [Grant(f.state, f.row, w.clock)])
    case Drop(id) => w.(flows := w.flows - {id})
  }

  predicate ValidRun(w: World, run: seq<Action>)
    decreases |run|
  {
    run == [] || (Enabled(w, run[0]) && ValidRun(Next(w, run[0]), run[1..]))
  }

  function After(w: World, run: seq<Action>): World
    requires ValidRun(w, run)
    decreases |run|
  {
    if run == [] then w else After(Next(w, run[0]), run[1..])
  }

  // ---------------------------------------------------------------- the sweep

  /** A row holds what its state was created with, and expires ten minutes after that. */
  predicate RowOk(w: World, state: string, r: Request) {
    && state in w.created && IsDatetime(Expiry(w, state)) && r.expiresAt == ToIso(Expiry(w, state))
    && r.verifier == w.created[state].verifier && r.redirect == w.created[state].redirect
  }

  function Expiry(w: World, state: string): int
    requires state in w.created
  {
    w.created[state].start + 600_000_000
  }

  /** The sweep removes exactly the rows whose expiry lies before the time it was given. */
  lemma SweepRemovesTheExpired(w: World, now: int, state: string)
    requires state in w.rows && RowOk(w, state, w.rows[state]) && IsDatetime(now)
    ensures state in Swept(w.rows, now) <==> Expiry(w, state) >= now
    ensures state in Swept(w.rows, now) ==> Swept(w.rows, now)[state] == w.rows[state]
  {
    IsoOrder(Expiry(w, state), now);
  }

  lemma LateIsPastExpiry(w: World, state: string, r: Request)
    requires RowOk(w, state, r)
    ensures IsLate(r, w.clock) <==> w.clock > Expiry(w, state)
  {
    IsoRoundTrip(Expiry(w, state));
  }

  // ---------------------------------------------------------------- the invariant

  predicate FlowOk(w: World, f: Flow) {
    match f
    case Stamped(_, now) => now <= w.clock && IsDatetime(now) && IsDatetime(now + TTL)
    case SweptAt(_, now) => now <= w.clock && IsDatetime(now) && IsDatetime(now + TTL)
    case Taken(state, row) => state in w.taken && RowOk(w, state, row) && forall k :: 0 <= k < |w.granted| ==> w.granted[k].state != state
  }

  predicate MissOk(w: World, m: Miss) {
    m.known && !m.used ==> m.state in w.created && Expiry(w, m.state) < m.at
  }

  ghost predicate StoreOk(w: World) {
    && (forall s :: s in w.rows ==> RowOk(w, s, w.rows[s]) && s !in w.taken)
    && (forall s :: s in w.created && s !in w.rows && s !in w.taken ==> Expiry(w, s) < w.clock)
    && w.taken <= w.created.Keys
    && (forall id :: id in w.flows ==> FlowOk(w, w.flows[id]))
    && (forall i, j :: i in w.flows && j in w.flows && i != j && w.flows[i].Taken? && w.flows[j].Taken? ==>
          w.flows[i].state != w.flows[j].state)
    && (forall k :: 0 <= k < |w.granted| ==>
          var g := w.granted[k];
          g.state in w.taken && RowOk(w, g.state, g.row) && g.at <= Expiry(w, g.state))
    && (forall i, j :: 0 <= i < j < |w.granted| ==> w.granted[i].state != w.granted[j].state)
    && (forall k :: 0 <= k < |w.missed| ==> MissOk(w, w.missed[k]))
  }

  lemma RowsStayOk(w: World, w': World)
    requires w'.created == w.created
    ensures forall s, r :: RowOk(w, s, r) <==> RowOk(w', s, r)
  {}

  lemma KnownAreCreated(w: World)
    requires StoreOk(w)
    ensures w.rows.Keys <= w.created.Keys
  {}

  lemma SweepKeeps(w: World, id: nat)
    requires StoreOk(w) && Enabled(w, Sweep(id))
    ensures StoreOk(Next(w, Sweep(id)))
  {
    hide IsDatetime, ToIso;
    var now := w.flows[id].now;
    assert FlowOk(w, w.flows[id]);
    forall s | s in w.rows ensures s in Swept(w.rows, now) <==> Expiry(w, s) >= now { SweepRemovesTheExpired(w, now, s); }
    var w' := Next(w, Sweep(id));
    forall i | i in w'.flows ensures FlowOk(w', w'.flows[i]) { assert i != id ==> FlowOk(w, w.flows[i]); }
  }

  lemma InsertedRowIsOk(w: World, a: Action)
    requires a.Insert? && Enabled(w, a) && IsDatetime(w.flows[a.id].now + TTL)
    ensures RowOk(Next(w, a), a.state, Next(w, a).rows[a.state])
    ensures forall s, r :: RowOk(w, s, r) ==> RowOk(Next(w, a), s, r)
  {
    hide IsDatetime, ToIso;
  }

  lemma InsertKeeps(w: World, a: Action)
    requires StoreOk(w) && a.Insert? && Enabled(w, a)
    ensures StoreOk(Next(w, a))
  {
    hide IsDatetime, ToIso, RowOk;
    var w' := Next(w, a);
    assert FlowOk(w, w.flows[a.id]);
    InsertedRowIsOk(w, a);
    KnownAreCreated(w);
    forall i | i in w'.flows ensures FlowOk(w', w'.flows[i]) { assert FlowOk(w, w.flows[i]); }
    forall k | 0 <= k < |w'.missed| ensures MissOk(w', w'.missed[k]) { assert MissOk(w, w.missed[k]); }
  }

  lemma TakeKeeps(w: World, id: nat, state: string)
    requires StoreOk(w) && Enabled(w, Take(id, state))
    ensures StoreOk(Next(w, Take(id, state)))
  {
    hide IsDatetime, ToIso, RowOk;
    var w' := Next(w, Take(id, state));
    RowsStayOk(w, w');
    KnownAreCreated(w);
    forall i | i in w'.flows ensures FlowOk(w', w'.flows[i]) { assert i in w.flows ==> FlowOk(w, w.flows[i]); }
    forall k | 0 <= k < |w'.missed| ensures MissOk(w', w'.missed[k]) { assert k < |w.missed| ==> MissOk(w, w.missed[k]); }
  }

  lemma JudgeKeeps(w: World, id: nat)
    requires StoreOk(w) && Enabled(w, Judge(id))
    ensures StoreOk(Next(w, Judge(id)))
  {
    hide IsDatetime, ToIso, IsLate;
    var f, w' := w.flows[id], Next(w, Judge(id));
    assert FlowOk(w, f);
    LateIsPastExpiry(w, f.state, f.row);
    forall i | i in w'.flows ensures FlowOk(w', w'.flows[i]) { assert FlowOk(w, w.flows[i]); }
    forall k | 0 <= k < |w'.missed| ensures MissOk(w', w'.missed[k]) { assert MissOk(w, w.missed[k]); }
  }

  lemma OthersKeep(w: World, a: Action)
    requires StoreOk(w) && Enabled(w, a) && (a.Tick? || a.Begin? || a.Drop?)
    ensures StoreOk(Next(w, a))
  {
    hide IsDatetime, ToIso, RowOk;
    var w' := Next(w, a);
    RowsStayOk(w, w');
    forall i | i in w'.flows ensures FlowOk(w', w'.flows[i]) { assert i in w.flows ==> FlowOk(w, w.flows[i]); }
    forall k | 0 <= k < |w'.missed| ensures MissOk(w', w'.missed[k]) { assert MissOk(w, w.missed[k]); }
  }

  /** Every step keeps the invariant. */
  lemma StepKeepsStore(w: World, a: Action)
    requires StoreOk(w) && Enabled(w, a)
    ensures StoreOk(Next(w, a))
  {
    hide StoreOk, Next;
    match a {
      case Sweep(id) => SweepKeeps(w, id);
      case Insert(_, _, _) => InsertKeeps(w, a);
      case Take(id, state) => TakeKeeps(w, id, state);
      case Judge(id) => JudgeKeeps(w, id);
      case _ => OthersKeep(w, a);
    }
  }

  lemma {:induction false} RunKeepsStore(w: World, run: seq<Action>)
    requires StoreOk(w) && ValidRun(w, run)
    ensures StoreOk(After(w, run))
    decreases |run|
  {
    hide StoreOk, Enabled, Next;
    if run != [] {
      StepKeepsStore(w, run[0]);
      RunKeepsStore(Next(w, run[0]), run[1..]);
    }
  }

  // ---------------------------------------------------------------- theorems

  /** Over every interleaving: a state is returned at most once, with what it was created with, and never more than ten minutes after it was created. */
  lemma GrantedOnceInTime(clock: int, run: seq<Action>)
    requires ValidRun(Start(clock), run)
    ensures var w := After(Start(clock), run);
      && (forall i, j :: 0 <= i < j < |w.granted| ==> w.granted[i].state != w.granted[j].state)
      && (forall k :: 0 <= k < |w.granted| ==>
            var g := w.granted[k];
            && g.state in w.created && g.at <= w.created[g.state].start + 600_000_000
            && g.row.verifier == w.created[g.state].verifier && g.row.redirect == w.created[g.state].redirect)
  {
    hide Enabled, Next;
    RunKeepsStore(Start(clock), run);
  }

  /** And nothing else is refused: a consume finds no row only for an unknown, a used or an expired state. */
  lemma RefusedForCause(clock: int, run: seq<Action>, k: nat)
    requires ValidRun(Start(clock), run)
    ensures var w := After(Start(clock), run);
      k < |w.missed| && w.missed[k].known && !w.missed[k].used ==>
        w.missed[k].state in w.created && w.created[w.missed[k].state].start + 600_000_000 < w.missed[k].at
  {
    hide Enabled, Next;
    RunKeepsStore(Start(clock), run);
    var w := After(Start(clock), run);
    if k < |w.missed| { assert MissOk(w, w.missed[k]); }
  }

  /** A consume that has its row is granted exactly if the clock has not passed the expiry. */
  lemma TakenIsGrantedIfInTime(clock: int, run: seq<Action>, id: nat)
    requires ValidRun(Start(clock), run)
    ensures var w := After(Start(clock), run);
      Enabled(w, Judge(id)) ==>
        w.flows[id].state in w.created
        && Next(w, Judge(id)).granted == w.granted +
             if w.clock <= w.created[w.flows[id].state].start + 600_000_000 then [Grant(w.flows[id].state, w.flows[id].row, w.clock)] else []
  {
    RunKeepsStore(Start(clock), run);
    var w := After(Start(clock), run);
    hide After, ValidRun, IsLate, IsDatetime, ToIso;
    if Enabled(w, Judge(id)) {
      assert FlowOk(w, w.flows[id]);
      LateIsPastExpiry(w, w.flows[id].state, w.flows[id].row);
    }
  }

  /** The redirects of the creates begun in a run, each with the clock reading it began at. */
  ghost function Begun(w: World, run: seq<Action>): set<(string, int)>
    requires ValidRun(w, run)
    decreases |run|
  {
    if run == [] then {}
    else (if run[0].Begin? then {(run[0].redirect, w.clock)} else {}) + Begun(Next(w, run[0]), run[1..])
  }

  /** All that is under way or inserted was begun as one of `begun`. */
  ghost predicate BegunAs(w: World, begun: set<(string, int)>) {
    && (forall id :: id in w.flows && !w.flows[id].Taken? ==> (w.flows[id].redirect, w.flows[id].now) in begun)
    && (forall s :: s in w.created ==> (w.created[s].redirect, w.created[s].start) in begun)
  }

  lemma {:induction false} RunKeepsBeginnings(w: World, run: seq<Action>, begun: set<(string, int)>)
    requires ValidRun(w, run) && BegunAs(w, begun)
    ensures BegunAs(After(w, run), begun + Begun(w, run))
    decreases |run|
  {
    hide IsLate, Swept, ToIso, IsDatetime;
    if run != [] {
      var now := if run[0].Begin? then {(run[0].redirect, w.clock)} else {};
      assert BegunAs(Next(w, run[0]), begun + now);
      RunKeepsBeginnings(Next(w, run[0]), run[1..], begun + now);
      assert begun + now + Begun(Next(w, run[0]), run[1..]) == begun + Begun(w, run);
    }
  }

  /** The ten minutes of a request run from the clock reading its login began with, and it leads back where that login asked. */
  lemma RequestsStartWithTheirLogin(clock: int, run: seq<Action>, state: string)
    requires ValidRun(Start(clock), run)
    ensures var w := After(Start(clock), run);
      state in w.created ==> (w.created[state].redirect, w.created[state].start) in Begun(Start(clock), run)
  {
    hide Enabled, Next;
    RunKeepsBeginnings(Start(clock), run, {});
    assert {} + Begun(Start(clock), run) == Begun(Start(clock), run);
  }

  /** A consume that nothing disturbs is granted the row exactly if the clock has not passed its expiry. */
  lemma ConsumeAlone(w: World, back: nat, state: string, e: int, later: int)
    requires back !in w.flows && state in w.rows && ExpiresAt(w.rows[state], e) && w.clock <= later && IsDatetime(later)
    ensures var run := [Tick(later)] + ([Take(back, state)] + [Judge(back)]);
      ValidRun(w, run) && After(w, run).granted == w.granted + if later <= e then [Grant(state, w.rows[state], later)] else []
  {
    hide IsDatetime, ExpiresAt, IsLate, ValidRun, After;
    var w1 := Next(w, Tick(later));
    var w2 := Next(w1, Take(back, state));
    LateAfterExpiry(w.rows[state], e, later);
    RunOfOne(w2, Judge(back));
    RunOfMore(w1, Take(back, state), [Judge(back)]);
    RunOfMore(w, Tick(later), [Take(back, state)] + [Judge(back)]);
  }

  /** A login that nothing disturbs runs to its end, and is granted its own request exactly if it is back within ten minutes. */
  lemma LoginAlone(w: World, begin: nat, back: nat, redirect: string, state: string, verifier: string, later: int)
    requires begin !in w.flows && back !in w.flows && state !in w.created
    requires IsDatetime(w.clock) && IsDatetime(w.clock + TTL) && w.clock <= later && IsDatetime(later)
    ensures var consume := [Tick(later)] + ([Take(back, state)] + [Judge(back)]);
      var run := [Begin(begin, redirect)] + ([Sweep(begin)] + ([Insert(begin, state, verifier)] + consume));
      var row := Request(verifier, redirect, ToIso(w.clock + 600_000_000));
      ValidRun(w, run)
      && After(w, run).granted == w.granted + if later <= w.clock + 600_000_000 then [Grant(state, row, later)] else []
  {
    hide IsDatetime, ToIso, Swept, IsLate, ValidRun, After;
    var consume := [Tick(later)] + ([Take(back, state)] + [Judge(back)]);
    var w1 := Next(w, Begin(begin, redirect));
    var w2 := Next(w1, Sweep(begin));
    var w3 := Next(w2, Insert(begin, state, verifier));
    ConsumeAlone(w3, back, state, w.clock + TTL, later);
    RunOfMore(w2, Insert(begin, state, verifier), consume);
    RunOfMore(w1, Sweep(begin), [Insert(begin, state, verifier)] + consume);
    RunOfMore(w, Begin(begin, redirect), [Sweep(begin)] + ([Insert(begin, state, verifier)] + consume));
  }

  lemma RunOfOne(w: World, a: Action)
    requires Enabled(w, a)
    ensures ValidRun(w, [a]) && After(w, [a]) == Next(w, a)
  {
    assert [a][1..] == [];
  }

  lemma RunOfMore(w: World, a: Action, rest: seq<Action>)
    requires Enabled(w, a) && ValidRun(Next(w, a), rest)
    ensures ValidRun(w, [a] + rest) && After(w, [a] + rest) == After(Next(w, a), rest)
  {
    assert ([a] + rest)[1..] == rest;
  }

  // ---------------------------------------------------------------- the store

  /** Every row expires at a datetime, written as text. */
  ghost predicate GoodTable(rows: Table) { forall s :: s in rows ==> exists e :: ExpiresAt(rows[s], e) }

  predicate ExpiresAt(r: Request, e: int) { IsDatetime(e) && r.expiresAt == ToIso(e) }

  lemma LateAfterExpiry(r: Request, e: int, clock: int)
    requires ExpiresAt(r, e)
    ensures IsLate(r, clock) <==> clock > e
  {
    IsoRoundTrip(e);
  }

  lemma SweptIsExpired(rows: Table, now: int, state: string, e: int)
    requires state in rows && ExpiresAt(rows[state], e) && IsDatetime(now)
    ensures state in Swept(rows, now) <==> e >= now
  {
    IsoOrder(e, now);
  }

  class AuthStore {
    var rows: Table

    ghost predicate Valid()
      reads this
    {
      GoodTable(rows)
    }

    constructor ()
      ensures Valid() && rows == map[]
    {
      rows := map[];
    }

    /**
     * Starts a login. No unexpired request of another state is touched and every expired one is gone; the new one can be
     * consumed for the next ten minutes and not after. (The random values are fresh, and the dates in range.)
     */
    method CreateOidcRequest(redirect: string, now: int, state: string, verifier: string) returns (r: Request)
      requires Valid() && state !in rows && IsDatetime(now) && IsDatetime(now + TTL)
      modifies this
      ensures Valid()
      ensures state in rows && rows[state] == r && ExpiresAt(r, now + 600_000_000) && r.verifier == verifier && r.redirect == redirect
      ensures forall clock :: IsLate(r, clock) <==> clock > now + 600_000_000
      ensures forall s, e :: s in old(rows) && ExpiresAt(old(rows)[s], e) ==> (s in rows <==> e >= now)
      ensures forall s :: s in rows && s != state ==> s in old(rows) && rows[s] == old(rows)[s]
    {
      hide IsDatetime, ToIso, IsLate;
      forall s, e | s in rows && ExpiresAt(rows[s], e) ensures s in Swept(rows, now) <==> e >= now { SweptIsExpired(rows, now, s, e); }
      rows := Swept(rows, now);
      r := Request(verifier, redirect, ToIso(now + TTL));
      rows := rows[state := r];
      assert ExpiresAt(r, now + TTL);
      forall clock ensures IsLate(r, clock) <==> clock > now + TTL { LateAfterExpiry(r, now + TTL, clock); }
    }

    /** The row is gone whatever the answer; a request is returned exactly up to its expiry. */
    method ConsumeOidcRequest(state: string, now: int) returns (r: Option<Request>)
      requires Valid()
      modifies this
      ensures Valid() && rows == old(rows) - {state}
      ensures r.Some? ==> state in old(rows) && r.value == old(rows)[state]
      ensures forall e :: state in old(rows) && ExpiresAt(old(rows)[state], e) ==> (r.Some? <==> now <= e)
    {
      hide IsDatetime, ToIso, IsLate;
      if state !in rows { return None; }
      var row := rows[state];
      rows := rows - {state};
      forall e | ExpiresAt(row, e) ensures IsLate(row, now) <==> now > e { LateAfterExpiry(row, e, now); }
      r := if IsLate(row, now) then None else Some(row);
    }

    /** A login from start to end: in time it gets its own request back, once; late, or a second time, nothing. */
    method LogIn(redirect: string, start: int, state: string, verifier: string, back: int, again: int)
      returns (first: Option<Request>, second: Option<Request>)
      requires Valid() && state !in rows && IsDatetime(start) && IsDatetime(start + TTL)
      modifies this
      ensures Valid() && state !in rows && second == None
      ensures first.Some? <==> back <= start + 600_000_000
      ensures first.Some? ==> first.value.verifier == verifier && first.value.redirect == redirect
    {
      hide IsDatetime, ToIso, IsLate;
      var r := CreateOidcRequest(redirect, start, state, verifier);
      first := ConsumeOidcRequest(state, back);
      second := ConsumeOidcRequest(state, again);
    }
  }
}
