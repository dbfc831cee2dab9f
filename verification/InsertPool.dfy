/** The AliSQL insert pool: worker threads borrow connections, open one when the pool is empty,
    return a healthy one and close a broken one. */
module InsertPool {
  import opened Util

  /** Where a worker is inside insert_embeddings. */
  datatype Pc = Idle | Opening | Preparing(conn: nat) | Using(conn: nat)

  /** Every connection ever opened, by number; Lost is one dropped without being closed, which only
      a failing session statement or a failing close can cause. */
  datatype Place = Pooled | Borrowed(worker: nat) | Closed | Lost

  datatype State = State(pool: seq<nat>, pcs: seq<Pc>, places: seq<Place>)

  function Start(workers: nat): State {
    State([], seq(workers, i => Idle), [])
  }

  function Moved(s: State, w: nat, pc: Pc): State
    requires w < |s.pcs|
  {
    s.(pcs := s.pcs[w := pc])
  }

  function Put(s: State, conn: nat, place: Place): State
    requires conn < |s.places|
  {
    s.(places := s.places[conn := place])
  }

  /** get_nowait(): the oldest pooled connection, or Empty. */
  function TryGet(s: State, w: nat): State
    requires w < |s.pcs| && (s.pool != [] ==> s.pool[0] < |s.places|)
  {
    if s.pool == [] then Moved(s, w, Opening)
    else Put(Moved(s, w, Using(s.pool[0])), s.pool[0], Borrowed(w)).(pool := s.pool[1..])
  }

  /** A new connection is established. */
  function Open(s: State, w: nat): State
    requires w < |s.pcs|
  {
    Moved(s, w, Preparing(|s.places|)).(places := s.places + [Borrowed(w)])
  }

  /** insert_embeddings ends: without error the connection goes back, else it is closed. */
  function Finish(s: State, w: nat, ok: bool, closes: bool): State
    requires w < |s.pcs| && s.pcs[w].Using? && s.pcs[w].conn < |s.places|
  {
    var conn := s.pcs[w].conn;
    if ok then Put(Moved(s, w, Idle), conn, Pooled).(pool := s.pool + [conn])
    else Put(Moved(s, w, Idle), conn, if closes then Closed else Lost)
  }

  /** faultless: session statements and closes never fail. Opening may always fail. */
  ghost predicate WorkerNext(faultless: bool, s: State, t: State, w: nat) {
    && w < |s.pcs|
    && match s.pcs[w]
       case Idle => (s.pool != [] ==> s.pool[0] < |s.places|) && t == TryGet(s, w)
       case Opening => t == Moved(s, w, Idle) || t == Open(s, w)
       case Preparing(conn) =>
         || t == Moved(s, w, Using(conn))
         || (!faultless && conn < |s.places| && t == Put(Moved(s, w, Idle), conn, Lost))
       case Using(conn) => conn < |s.places| && exists ok, closes :: IsFinish(faultless, s, t, w, ok, closes)
  }

  ghost predicate IsFinish(faultless: bool, s: State, t: State, w: nat, ok: bool, closes: bool)
    requires w < |s.pcs| && s.pcs[w].Using? && s.pcs[w].conn < |s.places|
  {
    (faultless ==> closes) && t == Finish(s, w, ok, closes)
  }

  ghost predicate Next(faultless: bool, s: State, t: State) {
    exists w: nat :: WorkerNext(faultless, s, t, w)
  }

  ghost predicate IsRun(workers: nat, faultless: bool, run: seq<State>) {
    && |run| > 0 && run[0] == Start(workers)
    && forall i :: 0 <= i < |run| - 1 ==> Next(faultless, run[i], run[i + 1])
  }

  ghost predicate Reachable(workers: nat, faultless: bool, s: State) {
    exists run :: IsRun(workers, faultless, run) && run[|run| - 1] == s
  }

  // ---- what every step keeps ----

  function ConnOf(pc: Pc): Option<nat> {
    match pc
    case Preparing(conn) => Some(conn)
    case Using(conn) => Some(conn)
    case _ => None
  }

  function Busy(pcs: seq<Pc>): (r: seq<int>)
    ensures |r| == |pcs|
  {
    seq(|pcs|, w requires 0 <= w < |pcs| => if pcs[w].Idle? then 0 else 1)
  }

  function Holding(pcs: seq<Pc>): (r: seq<int>)
    ensures |r| == |pcs|
  {
    seq(|pcs|, w requires 0 <= w < |pcs| => if ConnOf(pcs[w]).Some? then 1 else 0)
  }

  function Live(places: seq<Place>): (r: seq<int>)
    ensures |r| == |places|
  {
    seq(|places|, i requires 0 <= i < |places| => if places[i].Pooled? || places[i].Borrowed? then 1 else 0)
  }

  ghost predicate PlaceInv(s: State) {
    && Distinct(s.pool)
    && (forall i :: 0 <= i < |s.pool| ==> s.pool[i] < |s.places| && s.places[s.pool[i]].Pooled?)
    && (forall conn :: 0 <= conn < |s.places| && s.places[conn].Pooled? ==> conn in s.pool)
    && (forall w :: 0 <= w < |s.pcs| && ConnOf(s.pcs[w]).Some? ==>
          ConnOf(s.pcs[w]).value < |s.places| && s.places[ConnOf(s.pcs[w]).value] == Borrowed(w))
    && (forall conn :: 0 <= conn < |s.places| && s.places[conn].Borrowed? ==>
          s.places[conn].worker < |s.pcs| && ConnOf(s.pcs[s.places[conn].worker]) == Some(conn))
  }

  ghost predicate CountInv(s: State) {
    && Sum(Live(s.places)) == |s.pool| + Sum(Holding(s.pcs))
    && |s.pool| + Sum(Busy(s.pcs)) <= |s.pcs|
  }

  ghost predicate Inv(workers: nat, faultless: bool, s: State) {
    && |s.pcs| == workers && PlaceInv(s) && CountInv(s)
    && (faultless ==> forall conn :: 0 <= conn < |s.places| ==> !s.places[conn].Lost?)
  }

  lemma MoveCounts(pcs: seq<Pc>, w: nat, pc: Pc)
    requires w < |pcs|
    ensures Sum(Busy(pcs[w := pc])) == Sum(Busy(pcs)) - Busy(pcs)[w] + if pc.Idle? then 0 else 1
    ensures Sum(Holding(pcs[w := pc])) == Sum(Holding(pcs)) - Holding(pcs)[w] + if ConnOf(pc).Some? then 1 else 0
  {
    SumUpdate(Busy(pcs), w, if pc.Idle? then 0 else 1);
    assert Busy(pcs[w := pc]) == Busy(pcs)[w := if pc.Idle? then 0 else 1];
    SumUpdate(Holding(pcs), w, if ConnOf(pc).Some? then 1 else 0);
    assert Holding(pcs[w := pc]) == Holding(pcs)[w := if ConnOf(pc).Some? then 1 else 0];
  }

  lemma PlaceCounts(places: seq<Place>, conn: nat, place: Place)
    requires conn < |places|
    ensures Sum(Live(places[conn := place]))
         == Sum(Live(places)) - Live(places)[conn] + if place.Pooled? || place.Borrowed? then 1 else 0
  {
    SumUpdate(Live(places), conn, if place.Pooled? || place.Borrowed? then 1 else 0);
    assert Live(places[conn := place]) == Live(places)[conn := if place.Pooled? || place.Borrowed? then 1 else 0];
  }

  lemma {:induction false} SomeIdle(pcs: seq<Pc>, w: nat)
    requires w < |pcs| && pcs[w].Idle?
    ensures Sum(Busy(pcs)) < |pcs|
  {
    MoveCounts(pcs, w, Opening);
    BusyBound(pcs[w := Opening]);
  }

  lemma {:induction false} BusyBound(pcs: seq<Pc>)
    ensures Sum(Holding(pcs)) <= Sum(Busy(pcs)) <= |pcs|
    ensures Sum(Holding(pcs)) >= 0
    decreases |pcs|
  {
    if pcs != [] {
      var front := pcs[..|pcs| - 1];
      BusyBound(front);
      assert Busy(pcs)[..|pcs| - 1] == Busy(front);
      assert Holding(pcs)[..|pcs| - 1] == Holding(front);
    }
  }

  lemma TryGetKeepsInv(workers: nat, faultless: bool, s: State, w: nat)
    requires Inv(workers, faultless, s) && w < workers && s.pcs[w].Idle?
    ensures Inv(workers, faultless, TryGet(s, w))
  {
    if s.pool == [] {
      SomeIdle(s.pcs, w);
      MoveCounts(s.pcs, w, Opening);
    } else {
      MoveCounts(s.pcs, w, Using(s.pool[0]));
      PlaceCounts(s.places, s.pool[0], Borrowed(w));
      BorrowKeepsPlaces(s, w);
    }
  }

  lemma BorrowKeepsPlaces(s: State, w: nat)
    requires PlaceInv(s) && w < |s.pcs| && s.pcs[w].Idle? && s.pool != []
    ensures PlaceInv(TryGet(s, w))
  {
    var t, conn := TryGet(s, w), s.pool[0];
    assert s.pool == [conn] + t.pool;
    assert forall i :: 0 <= i < |t.pool| ==> t.pool[i] == s.pool[i + 1];
    assert forall x :: x in s.pool <==> x == conn || x in t.pool;
  }

  lemma OpenKeepsInv(workers: nat, faultless: bool, s: State, w: nat)
    requires Inv(workers, faultless, s) && w < workers && s.pcs[w].Opening?
    ensures Inv(workers, faultless, Open(s, w))
  {
    MoveCounts(s.pcs, w, Preparing(|s.places|));
    assert Live(s.places + [Borrowed(w)])[..|s.places|] == Live(s.places);
  }

  /** A worker gives its connection up: to the pool, closed, or lost. */
  lemma ReleaseKeepsInv(workers: nat, faultless: bool, s: State, t: State, w: nat, conn: nat, place: Place)
    requires Inv(workers, faultless, s) && w < workers && ConnOf(s.pcs[w]) == Some(conn) && conn < |s.places|
    requires !place.Borrowed? && (faultless ==> !place.Lost?)
    requires t == Put(Moved(s, w, Idle), conn, place).(pool := if place.Pooled? then s.pool + [conn] else s.pool)
    ensures Inv(workers, faultless, t)
  {
    MoveCounts(s.pcs, w, Idle);
    PlaceCounts(s.places, conn, place);
  }

  lemma PcKeepsInv(workers: nat, faultless: bool, s: State, w: nat, pc: Pc)
    requires Inv(workers, faultless, s) && w < workers && ConnOf(pc) == ConnOf(s.pcs[w]) && !s.pcs[w].Idle?
    ensures Inv(workers, faultless, Moved(s, w, pc))
  {
    MoveCounts(s.pcs, w, pc);
  }

  lemma StepKeepsInv(workers: nat, faultless: bool, s: State, t: State, w: nat)
    requires Inv(workers, faultless, s) && WorkerNext(faultless, s, t, w)
    ensures Inv(workers, faultless, t)
  {
    match s.pcs[w]
    case Idle => TryGetKeepsInv(workers, faultless, s, w);
    case Opening =>
      PcKeepsInv(workers, faultless, s, w, Idle);
      OpenKeepsInv(workers, faultless, s, w);
    case Preparing(conn) =>
      PcKeepsInv(workers, faultless, s, w, Using(conn));
      if !faultless {
        ReleaseKeepsInv(workers, faultless, s, Put(Moved(s, w, Idle), conn, Lost), w, conn, Lost);
      }
    case Using(conn) =>
      var ok, closes :| IsFinish(faultless, s, t, w, ok, closes);
      ReleaseKeepsInv(workers, faultless, s, t, w, conn, if ok then Pooled else if closes then Closed else Lost);
  }

  lemma {:induction false} RunKeepsInv(workers: nat, faultless: bool, run: seq<State>)
    requires IsRun(workers, faultless, run)
    ensures Inv(workers, faultless, run[|run| - 1])
  {
    if |run| == 1 {
      StartInv(workers, faultless);
    } else {
      var s, t := run[|run| - 2], run[|run| - 1];
      RunKeepsInv(workers, faultless, run[..|run| - 1]);
      assert Next(faultless, s, t);
      var w: nat :| WorkerNext(faultless, s, t, w);
      StepKeepsInv(workers, faultless, s, t, w);
    }
  }

  lemma StartInv(workers: nat, faultless: bool)
    ensures Inv(workers, faultless, Start(workers))
  {
    SumZeros(Busy(Start(workers).pcs));
    SumZeros(Holding(Start(workers).pcs));
  }

  // ---- the guarantees ----

  ghost function LiveCount(s: State): int {
    Sum(Live(s.places))
  }

  /** In every reachable state each connection is in one place only, the pool holds exactly the
      pooled ones, no two workers share one, and no more are live than there are workers. */
  lemma PoolIsSafe(workers: nat, faultless: bool, s: State)
    requires Reachable(workers, faultless, s)
    ensures |s.pcs| == workers && LiveCount(s) <= workers
    ensures Distinct(s.pool) && forall conn: nat :: conn in s.pool <==> conn < |s.places| && s.places[conn].Pooled?
    ensures forall w, conn: nat :: 0 <= w < workers ==>
              (ConnOf(s.pcs[w]) == Some(conn) <==> conn < |s.places| && s.places[conn] == Borrowed(w))
    ensures forall v, w :: 0 <= v < w < workers && ConnOf(s.pcs[v]).Some? ==> ConnOf(s.pcs[v]) != ConnOf(s.pcs[w])
    ensures faultless ==> forall conn :: 0 <= conn < |s.places| ==> !s.places[conn].Lost?
  {
    var run :| IsRun(workers, faultless, run) && run[|run| - 1] == s;
    RunKeepsInv(workers, faultless, run);
    BusyBound(s.pcs);
  }

  lemma NoneBorrowed(workers: nat, faultless: bool, s: State)
    requires Reachable(workers, faultless, s) && forall w :: 0 <= w < |s.pcs| ==> s.pcs[w].Idle?
    ensures forall conn :: 0 <= conn < |s.places| ==> !s.places[conn].Borrowed?
  {
    var run :| IsRun(workers, faultless, run) && run[|run| - 1] == s;
    RunKeepsInv(workers, faultless, run);
  }

  lemma ReachableStep(workers: nat, faultless: bool, s: State, t: State, w: nat)
    requires Reachable(workers, faultless, s) && WorkerNext(faultless, s, t, w)
    ensures Reachable(workers, faultless, t)
  {
    var run :| IsRun(workers, faultless, run) && run[|run| - 1] == s;
    assert Next(faultless, s, t);
    assert IsRun(workers, faultless, run + [t]);
  }

  ghost function AfterClosing(places: seq<Place>, closed: seq<nat>, closes: nat -> bool): (r: seq<Place>)
    ensures |r| == |places|
    ensures forall conn: nat :: conn < |r| ==>
              r[conn] == if conn in closed then (if closes(conn) then Closed else Lost) else places[conn]
  {
    seq(|places|, conn requires 0 <= conn < |places| =>
      if conn in closed then (if closes(conn) then Closed else Lost) else places[conn])
  }

  lemma CloseOneMore(places: seq<Place>, closed: seq<nat>, conn: nat, closes: nat -> bool)
    requires conn < |places|
    ensures AfterClosing(places, closed + [conn], closes)
         == AfterClosing(places, closed, closes)[conn := if closes(conn) then Closed else Lost]
  {}

  /** The drain loop: take connections off the queue until it is empty, closing each. */
  method CloseAll(pool: seq<nat>, ghost places: seq<Place>, closes: nat -> bool) returns (ghost r: seq<Place>)
    requires forall i :: 0 <= i < |pool| ==> pool[i] < |places|
    ensures r == AfterClosing(places, pool, closes)
  {
    r := places;
    var rest := pool;
    ghost var closed: seq<nat> := [];
    while rest != []
      invariant pool == closed + rest && r == AfterClosing(places, closed, closes)
      decreases |rest|
    {
      var conn := rest[0];
      assert pool[|closed|] == conn;
      CloseOneMore(places, closed, conn, closes);
      r := r[conn := if closes(conn) then Closed else Lost];
      closed := closed + [conn];
      rest := rest[1..];
    }
    assert closed == pool;
  }

  /** How the database treats one insert_embeddings call. */
  datatype Fate = Fate(connects: bool, prepares: bool, inserts: bool, closes: bool)

  function Rest(pool: seq<nat>): seq<nat> {
    if pool == [] then [] else pool[1..]
  }

  /** The connection a worker gets: the oldest pooled one, else a new one. */
  function NextConn(pool: seq<nat>, established: nat): nat {
    if pool == [] then established else pool[0]
  }

  /** The client's side of the pool. Every method is one worker's sequence of steps; the other
      workers may be anywhere in theirs. */
  class InsertConnections {
    ghost const workers: nat
    ghost const faultless: bool
    var insertPool: Option<seq<nat>>   // _insert_pool; None outside init()
    var established: nat
    ghost var s: State

    ghost predicate Valid()
      reads this
    {
      insertPool == Some(s.pool) && established == |s.places| && Reachable(workers, faultless, s)
    }

    constructor (ghost workers: nat, ghost faultless: bool)
      ensures Valid() && s == Start(workers) && this.workers == workers && this.faultless == faultless
    {
      this.workers, this.faultless := workers, faultless;
      insertPool, established, s := Some([]), 0, Start(workers);
      new;
      assert IsRun(workers, faultless, [s]);
    }

    /** _acquire_insert_conn: None when opening or preparing a new connection raises. */
    method AcquireInsertConn(ghost w: nat, fate: Fate) returns (conn: Option<nat>)
      requires Valid() && w < |s.pcs| && s.pcs[w].Idle? && (faultless ==> fate.prepares)
      modifies this
      ensures Valid() && s.pcs == old(s.pcs)[w := if conn.Some? then Using(conn.value) else Idle]
      ensures conn.Some? ==> conn.value < |s.places| && conn.value == NextConn(old(s.pool), old(established))
      ensures s.pool == Rest(old(s.pool))
      ensures conn.None? <==> old(s.pool) == [] && !(fate.connects && fate.prepares)
      ensures established == old(established) + if old(s.pool) == [] && fate.connects then 1 else 0
    {
      PoolIsSafe(workers, faultless, s);
      assert s.pool != [] ==> s.pool[0] in s.pool;
      ReachableStep(workers, faultless, s, TryGet(s, w), w);
      s := TryGet(s, w);
      if insertPool.value != [] {
        conn := Some(insertPool.value[0]);
        insertPool := Some(insertPool.value[1..]);
        return;
      }
      conn := OpenInsertConn(w, fate);
    }

    /** _create_connection and the session statement. */
    method OpenInsertConn(ghost w: nat, fate: Fate) returns (conn: Option<nat>)
      requires Valid() && w < |s.pcs| && s.pcs[w].Opening? && (faultless ==> fate.prepares)
      modifies this
      ensures Valid() && s.pcs == old(s.pcs)[w := if conn.Some? then Using(conn.value) else Idle]
      ensures conn == if fate.connects && fate.prepares then Some(old(established)) else None
      ensures established == old(established) + (if fate.connects then 1 else 0) && s.pool == old(s.pool)
    {
      if !fate.connects {
        ReachableStep(workers, faultless, s, Moved(s, w, Idle), w);
        s := Moved(s, w, Idle);
        return None;
      }
      ReachableStep(workers, faultless, s, Open(s, w), w);
      s := Open(s, w);
      established := established + 1;
      ghost var t := if fate.prepares then Moved(s, w, Using(established - 1))
                     else Put(Moved(s, w, Idle), established - 1, Lost);
      ReachableStep(workers, faultless, s, t, w);
      s := t;
      conn := if fate.prepares then Some(established - 1) else None;
    }

    /** insert_embeddings: the number of rows inserted, or 0 with an error. */
    method InsertEmbeddings(ghost w: nat, rows: nat, fate: Fate) returns (r: Result<nat, string>)
      requires Valid() && w < |s.pcs| && s.pcs[w].Idle? && (faultless ==> fate.prepares && fate.closes)
      modifies this
      ensures Valid() && s.pcs == old(s.pcs)
      ensures r.Ok? ==> r.value == rows
      ensures r.Ok? <==> fate.inserts && (old(s.pool) != [] || (fate.connects && fate.prepares))
      ensures var rest, conn := Rest(old(s.pool)), NextConn(old(s.pool), old(established));
              if r.Ok? then s.pool == rest + [conn]
              else
                && s.pool == rest
                && (old(s.pool) != [] || (fate.connects && fate.prepares) ==>
                      conn < |s.places| && s.places[conn] == if fate.closes then Closed else Lost)
    {
      var conn := AcquireInsertConn(w, fate);
      if conn.None? {
        return Err("no connection");
      }
      ghost var t := Finish(s, w, fate.inserts, fate.closes);
      assert IsFinish(faultless, s, t, w, fate.inserts, fate.closes);
      ReachableStep(workers, faultless, s, t, w);
      s := t;
      if fate.inserts {
        insertPool := Some(insertPool.value + [conn.value]);
        r := Ok(rows);
      } else {
        r := Err("insert failed");
      }
    }

    /** _drain_insert_pool, run once every worker has joined: closes(i) says whether closing
        connection i succeeds. Nothing stays open. */
    method DrainInsertPool(closes: nat -> bool) returns (ghost places: seq<Place>)
      requires Valid() && forall w :: 0 <= w < |s.pcs| ==> s.pcs[w].Idle?
      modifies this`insertPool
      ensures insertPool == None && |places| == established
      ensures forall conn: nat :: conn < |places| ==>
                places[conn] == if !s.places[conn].Pooled? then s.places[conn]
                                else if closes(conn) then Closed else Lost
      ensures forall conn :: 0 <= conn < |places| ==> places[conn].Closed? || places[conn].Lost?
      ensures faultless && (forall conn: nat :: closes(conn)) ==>
                forall conn :: 0 <= conn < |places| ==> places[conn].Closed?
    {
      PoolIsSafe(workers, faultless, s);
      NoneBorrowed(workers, faultless, s);
      var pool := insertPool.value;
      insertPool := None;
      assert forall i :: 0 <= i < |pool| ==> pool[i] in s.pool;
      places := CloseAll(pool, s.places, closes);
    }
  }
}
