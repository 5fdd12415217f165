/** Segment identifiers: drawn from a cursor, kept unique by maps in memory and in the database. */
module SidAllocator {
  import opened Topology
  import opened Bytes

  /** IPv6 addresses, network order. */
  type Address = a: seq<byte> | |a| == 16 witness seq(16, _ => 0)

  // ---------- Function numbers ----------

  const LOW := 0xf001
  const HIGH := 0xffff
  const SPAN := HIGH - LOW + 1
  const FACTOR := 1366
  const INCREMENT := 1247

  /** The permutation the parameters were chosen for. */
  function Lcg(x: nat): nat {
    (FACTOR * x + INCREMENT) % SPAN
  }

  /** `permute`: 16-bit arithmetic drops the carry before the remainder is taken. */
  function Permute(cursor: Word16): (f: Word16)
    ensures LOW <= f <= HIGH
  {
    var x := cursor % SPAN;
    LOW + ((FACTOR * x % 0x1_0000 + INCREMENT) % 0x1_0000) % SPAN
  }

  /** Without the dropped carry the numbers would not repeat within a period. */
  lemma LcgIsInjective(x: nat, y: nat)
    requires x < SPAN && y < SPAN && Lcg(x) == Lcg(y)
    ensures x == y
  {
    Undo(x);
    Undo(y);
  }

  const INVERSE := 2731

  lemma Shifted(x: nat, k: int)
    requires x < SPAN
    ensures (x + SPAN * k) % SPAN == x
  {
  }

  lemma Undo(x: nat)
    requires x < SPAN
    ensures INVERSE * (Lcg(x) + SPAN - INCREMENT) % SPAN == x
  {
    var q := (FACTOR * x + INCREMENT) / SPAN;
    var r := Lcg(x);
    assert r == FACTOR * x + INCREMENT - SPAN * q;
    Unscaled(x, q, r);
  }

  lemma Unscaled(x: nat, q: int, r: int)
    requires x < SPAN && r == FACTOR * x + INCREMENT - SPAN * q
    ensures INVERSE * (r + SPAN - INCREMENT) % SPAN == x
  {
    var k := 911 * x - INVERSE * q + INVERSE;
    assert INVERSE * (r + SPAN - INCREMENT) == x + SPAN * k;
    Shifted(x, k);
  }

  lemma Carries(x: nat)
    ensures (FACTOR * x % 0x1_0000 + INCREMENT) % 0x1_0000 == (FACTOR * x + INCREMENT) % 0x1_0000
  {
  }

  /** `permute` is that permutation only for the first 48 of each 4095 cursor values. */
  lemma PermuteIsLcgIff(cursor: Word16)
    ensures Permute(cursor) == LOW + Lcg(cursor % SPAN) <==> cursor % SPAN < 48
  {
    var x := cursor % SPAN;
    var t := FACTOR * x + INCREMENT;
    var w := (FACTOR * x % 0x1_0000 + INCREMENT) % 0x1_0000;
    Carries(x);
    var q := t / 0x1_0000;
    assert t == w + 0x1_0000 * q && 0x1_0000 == 16 * SPAN + 16;
    Drift(w, q);
  }

  /** Dropping `q` carries shifts the remainder by `16 q`. */
  lemma Drift(w: nat, q: nat)
    requires q <= 85
    ensures w % SPAN == (w + 0x1_0000 * q) % SPAN <==> q == 0
  {
    var a, b := w / SPAN, (w + 0x1_0000 * q) / SPAN;
    assert w == SPAN * a + w % SPAN;
    assert w + 0x1_0000 * q == SPAN * b + (w + 0x1_0000 * q) % SPAN;
    if w % SPAN == (w + 0x1_0000 * q) % SPAN {
      assert 16 * q == SPAN * (b - a - 16 * q);
    }
  }

  /** Two cursor values of one period do share a number. */
  lemma PermuteRepeats()
    ensures Permute(42) == Permute(2111) == 0xf50a
  {
  }

  // ---------- Addresses ----------

  /** `withHextets` at bit 48: bytes 6 and 7 are overwritten, the rest is the locator's. */
  function WithFunction(locator: Address, f: Word16): (sid: Address)
    ensures sid[..6] == locator[..6] && sid[8..] == locator[8..]
    ensures FunctionOf(sid) == f == 256 * (sid[6] as nat) + sid[7] as nat
  {
    var sid := locator[..6] + Be16(f) + locator[8..];
    assert sid[6..8] == Be16(f);
    sid
  }

  function FunctionOf(sid: Address): Word16 {
    FromBe16(sid[6..8])
  }

  // ---------- The allocator as a state machine ----------

  /** One segment per locator, tenant and behaviour. */
  datatype Key = Key(locator: Address, tenant: string, sidType: string)

  datatype State = State(byKey: map<Key, Address>, taken: set<Address>, cursor: Word16, rows: map<Key, Address>, rowCursor: Word16)

  const EMPTY := State(map[], {}, 0, map[], 0)

  const MAX_CHECKS := 5

  function Advance(cursor: Word16): Word16 {
    (cursor + 1) % 0x1_0000
  }

  function Candidate(locator: Address, cursor: Word16): Address {
    WithFunction(locator, Permute(cursor))
  }

  /** Where up to `tries` checks leave the cursor, and the free address they found. */
  function Probe(taken: set<Address>, locator: Address, cursor: Word16, tries: nat): (r: (Word16, Option<Address>))
    ensures r.1.Some? ==> r.1.value == Candidate(locator, r.0) && r.1.value !in taken
    decreases tries
  {
    if tries == 0 then (cursor, None)
    else if Candidate(locator, cursor) in taken then Probe(taken, locator, Advance(cursor), tries - 1)
    else (cursor, Some(Candidate(locator, cursor)))
  }

  /** The cursor `j` draws further on. */
  function Ahead(cursor: Word16, j: nat): Word16
    decreases j
  {
    if j == 0 then cursor else Ahead(Advance(cursor), j - 1)
  }

  predicate TakenAt(taken: set<Address>, locator: Address, cursor: Word16, j: nat) {
    Candidate(locator, Ahead(cursor, j)) in taken
  }

  /** `j` draws meet taken addresses and the next one a free one. */
  predicate FirstFree(taken: set<Address>, locator: Address, cursor: Word16, j: nat) {
    !TakenAt(taken, locator, cursor, j) && forall i :: 0 <= i < j ==> TakenAt(taken, locator, cursor, i)
  }

  lemma NextTaken(taken: set<Address>, locator: Address, cursor: Word16, j: nat)
    ensures TakenAt(taken, locator, cursor, j + 1) == TakenAt(taken, locator, Advance(cursor), j)
  {
  }

  lemma FirstFreeShifts(taken: set<Address>, locator: Address, cursor: Word16, j: nat)
    requires TakenAt(taken, locator, cursor, 0) && FirstFree(taken, locator, Advance(cursor), j)
    ensures FirstFree(taken, locator, cursor, j + 1)
  {
    NextTaken(taken, locator, cursor, j);
    forall i | 0 <= i < j + 1
      ensures TakenAt(taken, locator, cursor, i)
    {
      if i > 0 {
        NextTaken(taken, locator, cursor, i - 1);
      }
    }
  }

  /** The checks stop at the first free address within their number, and find none if there is none. */
  lemma {:induction false} ProbeIsFirstFree(taken: set<Address>, locator: Address, cursor: Word16, tries: nat) returns (j: nat)
    ensures var r := Probe(taken, locator, cursor, tries);
            && (r.1.Some? ==> j < tries && FirstFree(taken, locator, cursor, j) && r.0 == Ahead(cursor, j))
            && (r.1.None? ==> forall i :: 0 <= i < tries ==> TakenAt(taken, locator, cursor, i))
    decreases tries
  {
    j := 0;
    if tries > 0 && TakenAt(taken, locator, cursor, 0) {
      var i := ProbeIsFirstFree(taken, locator, Advance(cursor), tries - 1);
      if Probe(taken, locator, cursor, tries).1.Some? {
        j := i + 1;
        FirstFreeShifts(taken, locator, cursor, i);
      } else {
        AllTakenShift(taken, locator, cursor, tries - 1);
      }
    }
  }

  lemma AllTakenShift(taken: set<Address>, locator: Address, cursor: Word16, n: nat)
    requires TakenAt(taken, locator, cursor, 0) && forall i :: 0 <= i < n ==> TakenAt(taken, locator, Advance(cursor), i)
    ensures forall i :: 0 <= i < n + 1 ==> TakenAt(taken, locator, cursor, i)
  {
    forall i | 0 <= i < n + 1
      ensures TakenAt(taken, locator, cursor, i)
    {
      if i > 0 {
        NextTaken(taken, locator, cursor, i - 1);
      }
    }
  }

  /** The transaction commits, fails, or fails on the way back after it has committed. */
  datatype Database = Commits | Fails | CommitsUnheard

  /** The primary key on addresses and the unique key on locator, tenant and type. */
  predicate Insertable(rows: map<Key, Address>, key: Key, sid: Address) {
    key !in rows && sid !in rows.Values
  }

  function Get(s: State, key: Key, db: Database): (State, Option<Address>) {
    if key in s.byKey then (s.(taken := s.taken + {s.byKey[key]}), Some(s.byKey[key]))
    else
      var (cursor, found) := Probe(s.taken, key.locator, s.cursor, MAX_CHECKS);
      if found.None? || !Insertable(s.rows, key, found.value) || db.Fails? then (s.(cursor := cursor), None)
      else
        var written := s.(cursor := cursor, rows := s.rows[key := found.value], rowCursor := Advance(cursor));
        if db.CommitsUnheard? then (written, None)
        else (written.(cursor := Advance(cursor), byKey := s.byKey[key := found.value], taken := s.taken + {found.value}), found)
  }

  lemma {:induction false} AheadIs(cursor: Word16, j: nat)
    ensures Ahead(cursor, j) == (cursor + j) % 0x1_0000
    decreases j
  {
    if j > 0 {
      AheadIs(Advance(cursor), j - 1);
    }
  }

  /** The address that the draw `j` places after the cursor gives; cursors are 16 bits wide. */
  function Draw(locator: Address, cursor: Word16, j: nat): Address {
    WithFunction(locator, Permute((cursor + j) % 0x1_0000))
  }

  lemma DrawIs(taken: set<Address>, locator: Address, cursor: Word16, j: nat)
    ensures TakenAt(taken, locator, cursor, j) <==> Draw(locator, cursor, j) in taken
    ensures Candidate(locator, Ahead(cursor, j)) == Draw(locator, cursor, j)
  {
    AheadIs(cursor, j);
  }

  /** The first of five draws that is not taken. */
  ghost predicate FirstDraw(s: State, locator: Address, j: nat) {
    j < 5 && Draw(locator, s.cursor, j) !in s.taken && forall i :: 0 <= i < j ==> Draw(locator, s.cursor, i) in s.taken
  }

  lemma FirstFreeIsFirstDraw(s: State, locator: Address, j: nat)
    requires j < MAX_CHECKS && FirstFree(s.taken, locator, s.cursor, j)
    ensures FirstDraw(s, locator, j)
  {
    DrawIs(s.taken, locator, s.cursor, j);
    forall i | 0 <= i < j
      ensures Draw(locator, s.cursor, i) in s.taken
    {
      DrawIs(s.taken, locator, s.cursor, i);
    }
  }

  /** Memory and rows both remember an address and the cursor after it. */
  ghost predicate Remembers(s: State, key: Key, sid: Address, cursor: nat, s': State) {
    && s'.byKey == s.byKey[key := sid] && s'.rows == s.rows[key := sid] && s'.taken == s.taken + {sid}
    && s'.cursor == s'.rowCursor == cursor
  }

  /** What a new key is given: the locator with the function number of the first draw not taken. */
  lemma GrantIs(s: State, key: Key, db: Database) returns (j: nat)
    requires key !in s.byKey && Get(s, key, db).1.Some?
    ensures FirstDraw(s, key.locator, j) && Get(s, key, db).1.value == Draw(key.locator, s.cursor, j)
    ensures Remembers(s, key, Draw(key.locator, s.cursor, j), (s.cursor + j + 1) % 0x1_0000, Get(s, key, db).0)
  {
    j := ProbeIsFirstFree(s.taken, key.locator, s.cursor, MAX_CHECKS);
    FirstFreeIsFirstDraw(s, key.locator, j);
    DrawIs(s.taken, key.locator, s.cursor, j);
    AheadIs(s.cursor, j);
    GrantRemembers(s, key, db);
    Following(s.cursor, j);
  }

  lemma Following(cursor: Word16, j: nat)
    ensures Advance((cursor + j) % 0x1_0000) == (cursor + j + 1) % 0x1_0000
  {
  }

  lemma GrantRemembers(s: State, key: Key, db: Database)
    requires key !in s.byKey && Get(s, key, db).1.Some?
    ensures var (cursor, found) := Probe(s.taken, key.locator, s.cursor, MAX_CHECKS);
            && found.Some? && Get(s, key, db).1 == found && found.value == Candidate(key.locator, cursor)
            && Remembers(s, key, found.value, Advance(cursor), Get(s, key, db).0)
  {
  }

  /** A new process starts from the rows. */
  function Reload(s: State): State {
    State(s.rows, s.rows.Values, s.rowCursor, s.rows, s.rowCursor)
  }

  datatype Step = Request(key: Key, db: Database) | Restart

  function Next(s: State, step: Step): State {
    match step
    case Request(key, db) => Get(s, key, db).0
    case Restart => Reload(s)
  }

  function After(s: State, steps: seq<Step>): State {
    if steps == [] then s else Next(After(s, steps[..|steps| - 1]), steps[|steps| - 1])
  }

  /** What step `i` of a run answered. */
  function Answer(s: State, steps: seq<Step>, i: nat): Option<Address>
    requires i < |steps|
  {
    match steps[i]
    case Request(key, db) => Get(After(s, steps[..i]), key, db).1
    case Restart => None
  }

  // ---------- Invariants ----------

  ghost predicate Injective(m: map<Key, Address>) {
    forall a, b :: a in m && b in m && m[a] == m[b] ==> a == b
  }

  ghost predicate InLocator(m: map<Key, Address>) {
    forall k :: k in m ==> m[k][..6] == k.locator[..6] && LOW <= FunctionOf(m[k]) <= HIGH
  }

  ghost predicate SubMap(a: map<Key, Address>, b: map<Key, Address>) {
    forall k :: k in a ==> k in b && a[k] == b[k]
  }

  ghost predicate Inv(s: State) {
    && Injective(s.rows) && InLocator(s.rows)
    && SubMap(s.byKey, s.rows)
    && s.byKey.Values <= s.taken
  }

  lemma RowAdded(rows: map<Key, Address>, key: Key, cursor: Word16)
    requires Injective(rows) && InLocator(rows) && Insertable(rows, key, Candidate(key.locator, cursor))
    ensures Injective(rows[key := Candidate(key.locator, cursor)]) && InLocator(rows[key := Candidate(key.locator, cursor)])
  {
    assert forall k :: k in rows ==> rows[k] in rows.Values;
  }

  lemma GetKeepsInv(s: State, key: Key, db: Database)
    requires Inv(s)
    ensures Inv(Get(s, key, db).0) && SubMap(s.rows, Get(s, key, db).0.rows)
  {
    ValuesTaken(s, key, db);
    if key !in s.byKey {
      var (cursor, found) := Probe(s.taken, key.locator, s.cursor, MAX_CHECKS);
      if found.Some? && Insertable(s.rows, key, found.value) {
        RowAdded(s.rows, key, cursor);
      }
    }
  }

  lemma NextKeepsInv(s: State, step: Step)
    requires Inv(s)
    ensures Inv(Next(s, step)) && SubMap(s.rows, Next(s, step).rows)
  {
    if step.Request? {
      GetKeepsInv(s, step.key, step.db);
    }
  }

  lemma ValuesTaken(s: State, key: Key, db: Database)
    requires Inv(s)
    ensures Get(s, key, db).0.byKey.Values <= Get(s, key, db).0.taken
  {
    var s' := Get(s, key, db).0;
    forall a | a in s'.byKey.Values
      ensures a in s'.taken
    {
      var k :| k in s'.byKey && s'.byKey[k] == a;
      if k in s.byKey && s.byKey[k] == a {
        assert a in s.byKey.Values;
      }
    }
  }

  /** Memory holds exactly the rows: so after every restart, and until a commit goes unheard. */
  ghost predicate Mirrors(s: State) {
    s.byKey == s.rows && s.taken == s.rows.Values
  }

  lemma ValuesWith(rows: map<Key, Address>, key: Key, sid: Address)
    requires key !in rows
    ensures rows[key := sid].Values == rows.Values + {sid}
  {
    var rows' := rows[key := sid];
    assert rows'[key] == sid && forall k :: k in rows ==> rows'[k] == rows[k];
  }

  lemma MirrorsKept(s: State, step: Step)
    requires Mirrors(s) && (step.Request? ==> !step.db.CommitsUnheard?)
    ensures Mirrors(Next(s, step))
  {
    if step.Request? {
      var key := step.key;
      if key in s.byKey {
        assert s.byKey[key] in s.rows.Values;
      } else {
        var found := Probe(s.taken, key.locator, s.cursor, MAX_CHECKS).1;
        if found.Some? {
          ValuesWith(s.rows, key, found.value);
        }
      }
    }
  }

  /** The first free draw within the checks is one that the database will not take. */
  ghost predicate RowsObject(s: State, key: Key) {
    exists j: nat ::
      j < MAX_CHECKS && FirstFree(s.taken, key.locator, s.cursor, j) && !Insertable(s.rows, key, Candidate(key.locator, Ahead(s.cursor, j)))
  }

  lemma OneFirstFree(taken: set<Address>, locator: Address, cursor: Word16, i: nat, j: nat)
    requires FirstFree(taken, locator, cursor, i) && FirstFree(taken, locator, cursor, j)
    ensures i == j
  {
  }

  /** A request is refused exactly when its key is new and the transaction fails, the next five draws
      are all taken, or the rows object to the first free one. */
  lemma RequestFailsIff(s: State, key: Key, db: Database)
    ensures Get(s, key, db).1.None? <==>
            key !in s.byKey &&
            (!db.Commits? || (forall j :: 0 <= j < MAX_CHECKS ==> TakenAt(s.taken, key.locator, s.cursor, j)) || RowsObject(s, key))
  {
    var j := ProbeIsFirstFree(s.taken, key.locator, s.cursor, MAX_CHECKS);
    var r := Probe(s.taken, key.locator, s.cursor, MAX_CHECKS);
    if i: nat :| i < MAX_CHECKS && FirstFree(s.taken, key.locator, s.cursor, i) {
      assert !TakenAt(s.taken, key.locator, s.cursor, i) && r.1.Some?;
      OneFirstFree(s.taken, key.locator, s.cursor, i, j);
    }
  }

  /** While memory mirrors the database the rows never object. */
  lemma MirrorsNeverObject(s: State, key: Key)
    requires Mirrors(s) && key !in s.byKey
    ensures !RowsObject(s, key)
  {
  }

  /** The next draw for a locator is free in memory and taken in the database. */
  ghost predicate Stuck(s: State, locator: Address) {
    Candidate(locator, s.cursor) !in s.taken && Candidate(locator, s.cursor) in s.rows.Values
  }

  /** A commit that goes unheard leaves its locator stuck. */
  lemma UnheardSticks(s: State, key: Key)
    requires key !in s.byKey && Get(s, key, CommitsUnheard).0.rows != s.rows
    ensures Stuck(Get(s, key, CommitsUnheard).0, key.locator)
  {
    var s' := Get(s, key, CommitsUnheard).0;
    assert s'.rows[key] == Candidate(key.locator, s'.cursor);
  }

  /** Every new key of a stuck locator is refused, whatever the database does, and nothing moves. */
  lemma StuckRefuses(s: State, key: Key, db: Database)
    requires Stuck(s, key.locator) && key !in s.byKey
    ensures Get(s, key, db) == (s, None)
  {
    assert Probe(s.taken, key.locator, s.cursor, MAX_CHECKS) == (s.cursor, Some(Candidate(key.locator, s.cursor)));
  }

  /** So it stays stuck for as long as only such keys are asked for; a restart ends it. */
  lemma {:induction false} StuckRun(s: State, locator: Address, steps: seq<Step>)
    requires Stuck(s, locator)
    requires forall x :: x in steps ==> x.Request? && x.key.locator == locator && x.key !in s.byKey
    ensures After(s, steps) == s && !Stuck(Next(s, Restart), locator)
    decreases |steps|
  {
    if steps != [] {
      var n := |steps| - 1;
      assert steps[n] in steps;
      StuckRun(s, locator, steps[..n]);
      StuckRefuses(s, steps[n].key, steps[n].db);
    }
  }

  /** What is answered is what the database holds from then on. */
  lemma AnswerIsRow(s: State, key: Key, db: Database)
    requires Inv(s) && Get(s, key, db).1.Some?
    ensures key in Get(s, key, db).0.rows && Get(s, key, db).0.rows[key] == Get(s, key, db).1.value
  {
  }

  lemma {:induction false} RunKeepsInv(s: State, steps: seq<Step>)
    requires Inv(s)
    ensures Inv(After(s, steps)) && SubMap(s.rows, After(s, steps).rows)
    decreases |steps|
  {
    if steps != [] {
      RunKeepsInv(s, steps[..|steps| - 1]);
      NextKeepsInv(After(s, steps[..|steps| - 1]), steps[|steps| - 1]);
    }
  }

  lemma {:induction false} RowsOnlyGrow(s: State, steps: seq<Step>, i: nat)
    requires Inv(s) && i <= |steps|
    ensures SubMap(After(s, steps[..i]).rows, After(s, steps).rows)
    decreases |steps| - i
  {
    if i == |steps| {
      assert steps[..i] == steps;
    } else {
      assert steps[..i + 1][..i] == steps[..i];
      RunKeepsInv(s, steps[..i]);
      NextKeepsInv(After(s, steps[..i]), steps[i]);
      RowsOnlyGrow(s, steps, i + 1);
    }
  }

  /** Every answer of a run is in the rows at its end. */
  lemma AnswerStays(s: State, steps: seq<Step>, i: nat)
    requires Inv(s) && i < |steps| && Answer(s, steps, i).Some?
    ensures var rows := After(s, steps).rows; steps[i].key in rows && rows[steps[i].key] == Answer(s, steps, i).value
  {
    RunKeepsInv(s, steps[..i]);
    AnswerIsRow(After(s, steps[..i]), steps[i].key, steps[i].db);
    assert steps[..i + 1][..i] == steps[..i];
    RowsOnlyGrow(s, steps, i + 1);
  }

  /** Over every run, whatever fails and however often the controller restarts: equal keys get equal
      segments, different keys different ones, inside their locator and in the function range. */
  lemma SidsAreStableAndUnique(steps: seq<Step>, i: nat, j: nat)
    requires i < |steps| && j < |steps|
    requires Answer(EMPTY, steps, i).Some? && Answer(EMPTY, steps, j).Some?
    ensures Answer(EMPTY, steps, i) == Answer(EMPTY, steps, j) <==> steps[i].key == steps[j].key
    ensures Answer(EMPTY, steps, i).value[..6] == steps[i].key.locator[..6]
    ensures LOW <= FunctionOf(Answer(EMPTY, steps, i).value) <= HIGH
  {
    RunKeepsInv(EMPTY, steps);
    AnswerStays(EMPTY, steps, i);
    AnswerStays(EMPTY, steps, j);
  }

  // ---------- The code ----------

  class Allocator {
    var byKey: map<Key, Address>
    var taken: set<Address>
    var cursor: Word16
    var rows: map<Key, Address>
    var rowCursor: Word16

    function Now(): State reads this {
      State(byKey, taken, cursor, rows, rowCursor)
    }

    constructor ()
      ensures Now() == EMPTY
    {
      byKey, taken, cursor, rows, rowCursor := map[], {}, 0, map[], 0;
    }

    /** `getOrGenerateSID` */
    method GetOrGenerate(key: Key, db: Database) returns (r: Option<Address>)
      modifies this
      ensures (Now(), r) == Get(old(Now()), key, db)
    {
      if key in byKey {
        taken := taken + {byKey[key]};
        return Some(byKey[key]);
      }
      var checks := 0;
      while checks < MAX_CHECKS
        invariant 0 <= checks <= MAX_CHECKS
        invariant Now() == old(Now()).(cursor := cursor)
        invariant Probe(taken, key.locator, old(cursor), MAX_CHECKS) == Probe(taken, key.locator, cursor, MAX_CHECKS - checks)
      {
        var sid := Candidate(key.locator, cursor);
        if sid in taken {
          cursor := Advance(cursor);
          checks := checks + 1;
          continue;
        }
        if !Insertable(rows, key, sid) || db.Fails? {
          return None;
        }
        rows, rowCursor := rows[key := sid], Advance(cursor);
        if db.CommitsUnheard? {
          return None;
        }
        cursor := Advance(cursor);
        byKey := byKey[key := sid];
        taken := taken + {sid};
        return Some(sid);
      }
      r := None;
    }

    /** `LoadPreviousStateFromDB` in a new process. */
    method Load()
      modifies this
      ensures Now() == Reload(old(Now()))
    {
      byKey, taken, cursor := map[], {}, rowCursor;
      var todo := rows.Keys;
      while todo != {}
        invariant todo <= rows.Keys && rows == old(rows) && rowCursor == old(rowCursor) && cursor == rowCursor
        invariant byKey.Keys == rows.Keys - todo && SubMap(byKey, rows)
        invariant taken == set k | k in rows && k !in todo :: rows[k]
      {
        var k :| k in todo;
        todo := todo - {k};
        taken := taken + {rows[k]};
        byKey := byKey[k := rows[k]];
      }
      assert byKey == rows;
      assert taken == rows.Values;
    }
  }
}
