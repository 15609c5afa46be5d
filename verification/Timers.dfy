/** reactor/ObjectsTimer.h: deadlines kept in two maps, one per direction.
    Times are steady-clock readings in nanoseconds. */
module Timers {
  import Bytes

  const MILLI := 1_000_000
  const TWO31 := 0x8000_0000

  /** duration_cast<milliseconds>: truncation toward zero. */
  function WholeMillis(d: int): int {
    if d >= 0 then d / MILLI else -((-d) / MILLI)
  }

  /** Conversion of a 64-bit count to int32_t. */
  function AsInt32(x: int): (r: int)
    ensures -TWO31 <= r < TWO31
    ensures -TWO31 <= x < TWO31 ==> r == x
  {
    (x + TWO31) % Bytes.TWO32 - TWO31
  }

  /** It keeps the number modulo 2^32. */
  lemma AsInt32Keeps(x: int)
    ensures (AsInt32(x) - x) % 0x1_0000_0000 == 0
  {
    var q := (x + TWO31) / Bytes.TWO32;
    assert AsInt32(x) - x == -q * Bytes.TWO32;
  }

  /** The test of the extraction loop: less than one millisecond is left. */
  predicate Due(deadline: nat, now: nat) {
    WholeMillis(deadline - now) <= 0
  }

  lemma DueIff(deadline: nat, now: nat)
    ensures Due(deadline, now) <==> deadline - now < MILLI
  {
  }

  lemma DueStaysDue(deadline: nat, now: nat, later: nat)
    requires now <= later && Due(deadline, now)
    ensures Due(deadline, later)
  {
    DueIff(deadline, now);
    DueIff(deadline, later);
  }

  // ------------------------------------------------------------- specification

  predicate IsLeast(d: nat, s: set<nat>) {
    d in s && forall e :: e in s ==> d <= e
  }

  /** A finite non-empty set of numbers has a smallest element. */
  lemma {:induction false} LeastExists(s: set<nat>)
    requires s != {}
    ensures exists d :: IsLeast(d, s)
    decreases s
  {
    assert |s| != 0;
    var x :| x in s;
    var rest := s - {x};
    assert s == rest + {x};
    if rest == {} {
      assert IsLeast(x, s);
    } else {
      LeastExists(rest);
      var d :| IsLeast(d, rest);
      assert IsLeast(if d <= x then d else x, s);
    }
  }

  ghost function Least(s: set<nat>): (d: nat)
    requires s != {}
    ensures IsLeast(d, s)
  {
    LeastExists(s);
    var d :| IsLeast(d, s);
    d
  }

  /** get_min_timeout_milliseconds: -1 without timers, 0 when overdue, else the
      rest of the shortest wait, squeezed into 32 bits. */
  ghost function MinTimeout<T>(m: map<T, nat>, now: nat): int {
    if m.Values == {} then -1
    else
      var left := AsInt32(WholeMillis(Least(m.Values) - now));
      if left <= 0 then 0 else left
  }

  /** The objects waiting for one deadline. */
  ghost function At<T>(m: map<T, nat>, d: nat): set<T> {
    set o | o in m && m[o] == d
  }

  ghost predicate Ascending(ds: seq<nat>) {
    forall i, j :: 0 <= i < j < |ds| ==> ds[i] < ds[j]
  }

  ghost predicate Monotone(readings: seq<nat>) {
    forall i, j :: 0 <= i < j < |readings| ==> readings[i] <= readings[j]
  }

  /** All objects in a sequence of buckets. */
  function Members<T>(buckets: seq<set<T>>): set<T> {
    if buckets == [] then {} else Members(buckets[..|buckets| - 1]) + buckets[|buckets| - 1]
  }

  /** The buckets taken out, in order, each due at its own clock reading. */
  ghost predicate TakenOut<T>(m: map<T, nat>, buckets: seq<set<T>>, ds: seq<nat>, readings: seq<nat>) {
    && |buckets| == |ds| <= |readings|
    && Ascending(ds)
    && Monotone(readings)
    && (forall i :: 0 <= i < |ds| ==> buckets[i] == At(m, ds[i]) && buckets[i] != {})
    && (forall i :: 0 <= i < |ds| ==> Due(ds[i], readings[i]))
  }

  /** The rest of the timer: every object of the other deadlines, unchanged, all
      of them later than the deadlines taken out. */
  ghost predicate Rest<T>(m: map<T, nat>, m': map<T, nat>, ds: seq<nat>) {
    && (forall o :: o in m ==> (o in m' <==> m[o] !in ds))
    && (forall o :: o in m' ==> o in m && m'[o] == m[o])
    && (forall o, d :: o in m' && d in ds ==> d < m[o])
  }

  /** The first |ds| rounds of an extraction. */
  ghost predicate Extracting<T>(m: map<T, nat>, m': map<T, nat>, buckets: seq<set<T>>, ds: seq<nat>, readings: seq<nat>) {
    TakenOut(m, buckets, ds, readings) && Rest(m, m', ds)
  }

  /** A whole extraction: it ends with the timer empty, or with one more clock
      reading at which no deadline left behind is due. */
  ghost predicate Extraction<T>(m: map<T, nat>, m': map<T, nat>, buckets: seq<set<T>>, ds: seq<nat>, readings: seq<nat>) {
    && Extracting(m, m', buckets, ds, readings)
    && (forall o :: o in m' ==> |readings| == |ds| + 1 && !Due(m[o], readings[|ds|]))
  }

  // ------------------------------------------------------ what follows from it

  /** The objects handed out and the objects kept are the two parts of the
      timer: every one is either extracted or kept, never both. */
  lemma ExtractionPartitions<T>(m: map<T, nat>, m': map<T, nat>, buckets: seq<set<T>>, ds: seq<nat>, readings: seq<nat>, o: T)
    requires Extraction(m, m', buckets, ds, readings)
    ensures o in m <==> o in Members(buckets) || o in m'
    ensures !(o in Members(buckets) && o in m')
  {
    MembersIff(buckets, o);
    if o in m && m[o] in ds {
      var i :| 0 <= i < |ds| && ds[i] == m[o];
      assert o in buckets[i];
    }
  }

  lemma {:induction false} MembersIff<T>(buckets: seq<set<T>>, o: T)
    ensures o in Members(buckets) <==> exists i :: 0 <= i < |buckets| && o in buckets[i]
  {
    if buckets != [] {
      var k := |buckets| - 1;
      MembersIff(buckets[..k], o);
      if o in buckets[..k + 1][k] {
        assert o in buckets[k];
      }
      if i :| 0 <= i < |buckets| && o in buckets[i] {
        if i < k { assert o in buckets[..k][i]; }
      }
      if i :| 0 <= i < |buckets[..k]| && o in buckets[..k][i] {
        assert o in buckets[i];
      }
    }
  }

  /** No object whose deadline was due before the extraction began is left
      behind, provided the clock does not run backwards. */
  lemma NothingDueIsLeft<T>(m: map<T, nat>, m': map<T, nat>, buckets: seq<set<T>>, ds: seq<nat>, readings: seq<nat>, o: T, before: nat)
    requires Extraction(m, m', buckets, ds, readings)
    requires o in m && Due(m[o], before)
    requires forall i :: 0 <= i < |readings| ==> before <= readings[i]
    ensures o !in m' && o in Members(buckets)
  {
    if o in m' {
      DueStaysDue(m[o], before, readings[|ds|]);
    }
    ExtractionPartitions(m, m', buckets, ds, readings, o);
  }

  /** Extraction leaves nothing out of deadline order. */
  lemma ExtractedBeforeKept<T>(m: map<T, nat>, m': map<T, nat>, buckets: seq<set<T>>, ds: seq<nat>, readings: seq<nat>, gone: T, kept: T)
    requires Extraction(m, m', buckets, ds, readings)
    requires gone in Members(buckets) && kept in m'
    ensures gone in m && m[gone] < m[kept]
  {
    MembersIff(buckets, gone);
    var i :| 0 <= i < |buckets| && gone in buckets[i];
    assert gone in At(m, ds[i]) && ds[i] in ds;
  }

  /** A drain loop makes progress: if the minimum was reported as 0 and the
      nearest deadline is less than 2^31 ms away, the extraction is not empty. */
  lemma DrainProgress<T>(m: map<T, nat>, m': map<T, nat>, buckets: seq<set<T>>, ds: seq<nat>, readings: seq<nat>, before: nat)
    requires Extraction(m, m', buckets, ds, readings)
    requires MinTimeout(m, before) == 0
    requires WholeMillis(Least(m.Values) - before) < TWO31
    requires forall i :: 0 <= i < |readings| ==> before <= readings[i]
    ensures |buckets| > 0 && |m'| < |m|
  {
    var d := Least(m.Values);
    var o :| o in m && m[o] == d;
    NothingDueIsLeft(m, m', buckets, ds, readings, o, before);
    assert m'.Keys <= m.Keys - {o};
    assert |m'.Keys| <= |m.Keys - {o}| by { SubsetSize(m'.Keys, m.Keys - {o}); }
    assert |m'| == |m'.Keys| && |m| == |m.Keys|;
  }

  lemma SubsetSize<T>(a: set<T>, b: set<T>)
    requires a <= b
    ensures |a| <= |b|
  {
    assert b == a + (b - a);
  }

  /** When the minimum is reported as 0 although nothing is due: exactly when
      the rest of the wait, cut to 32 bits, is not positive. */
  lemma SpuriousZeroIff<T>(m: map<T, nat>, now: nat)
    requires m.Values != {}
    ensures var left := WholeMillis(Least(m.Values) - now);
            (MinTimeout(m, now) == 0 && forall o :: o in m ==> !Due(m[o], now))
            <==> left > 0 && (left + TWO31) % Bytes.TWO32 <= TWO31
  {
    var d := Least(m.Values);
    if o :| o in m && m[o] == d {
      if WholeMillis(d - now) > 0 {
        forall p | p in m
          ensures !Due(m[p], now)
        {
          DueIff(m[p], now);
          DueIff(d, now);
          assert m[p] in m.Values;
        }
      }
    }
  }

  /** A wait of 2^31 ms, which register_timeout accepts, is such a case. */
  lemma SpuriousZeroExample<T>(o: T, now: nat)
    ensures var m := map[o := now + TWO31 * MILLI];
            MinTimeout(m, now) == 0 && !Due(m[o], now)
  {
    var m := map[o := now + TWO31 * MILLI];
    assert m[o] in m.Values;
    assert m.Values == {now + TWO31 * MILLI};
  }

  /** When a positive wait is reported although a deadline is already due:
      exactly when it was missed by so long that cutting to 32 bits turns the
      sign, which takes more than 2^31 ms. */
  lemma MissedIff<T>(m: map<T, nat>, now: nat)
    requires m.Values != {}
    ensures var left := WholeMillis(Least(m.Values) - now);
            (MinTimeout(m, now) > 0 && exists o :: o in m && Due(m[o], now))
            <==> left < -TWO31 && (left + TWO31) % Bytes.TWO32 > TWO31
  {
    var d := Least(m.Values);
    var left := WholeMillis(d - now);
    var o :| o in m && m[o] == d;
    forall p | p in m && Due(m[p], now)
      ensures Due(d, now)
    {
      DueIff(m[p], now);
      DueIff(d, now);
      assert m[p] in m.Values;
    }
  }

  /** A timeout of no time at all, looked at 2^31 ms and one later, is such a case. */
  lemma MissedExample<T>(o: T, start: nat)
    ensures var m, now := map[o := start + 0 * MILLI], start + (TWO31 + 1) * MILLI;
            MinTimeout(m, now) == TWO31 - 1 && Due(m[o], now)
  {
    var m := map[o := start + 0 * MILLI];
    assert m[o] in m.Values;
    assert m.Values == {start};
  }

  // ------------------------------------------- the extracted objects, one by one

  ghost predicate InDeadlineOrder<T>(m: map<T, nat>, due: seq<T>) {
    && (forall x :: x in due ==> x in m)
    && (forall i, j :: 0 <= i < j < |due| ==> due[i] != due[j] && m[due[i]] <= m[due[j]])
  }

  /** From m to m' the timer has lost exactly the objects listed in `due`, each
      once: the first ones in the order of their deadlines, among them all that
      were due at `from`, and only such as were due at `until`. */
  ghost predicate FirstOut<T>(m: map<T, nat>, m': map<T, nat>, due: seq<T>, from: nat, until: nat) {
    && m' == m - (set x | x in due)
    && InDeadlineOrder(m, due)
    && (forall x :: x in m && Due(m[x], from) ==> x in due)
    && (forall x :: x in due ==> Due(m[x], until))
    && (forall x, y :: x in due && y in m' ==> m[x] < m[y])
  }

  lemma ExtractionIsFirstOut<T>(m: map<T, nat>, m': map<T, nat>, buckets: seq<set<T>>, ds: seq<nat>, readings: seq<nat>, due: seq<T>, from: nat, until: nat)
    requires Extraction(m, m', buckets, ds, readings)
    requires forall i :: 0 <= i < |readings| ==> from <= readings[i] <= until
    requires forall x :: x in due <==> x in Members(buckets)
    requires InDeadlineOrder(m, due)
    ensures FirstOut(m, m', due, from, until)
  {
    forall x
      ensures x in m' <==> x in m && x !in due
      ensures x in m && Due(m[x], from) ==> x in due
      ensures x in due ==> Due(m[x], until)
    {
      ExtractionPartitions(m, m', buckets, ds, readings, x);
      if x in m && Due(m[x], from) {
        NothingDueIsLeft(m, m', buckets, ds, readings, x, from);
      }
      if x in due {
        ExtractedIsDue(m, buckets, ds, readings, x, until);
      }
    }
    forall x, y | x in due && y in m'
      ensures m[x] < m[y]
    {
      ExtractedBeforeKept(m, m', buckets, ds, readings, x, y);
    }
  }

  lemma ExtractedIsDue<T>(m: map<T, nat>, buckets: seq<set<T>>, ds: seq<nat>, readings: seq<nat>, x: T, until: nat)
    requires TakenOut(m, buckets, ds, readings) && x in Members(buckets)
    requires forall i :: 0 <= i < |readings| ==> readings[i] <= until
    ensures x in m && Due(m[x], until)
  {
    MembersIff(buckets, x);
    var i :| 0 <= i < |buckets| && x in buckets[i];
    assert x in At(m, ds[i]);
    DueStaysDue(m[x], readings[i], until);
  }

  /** The sets of the deque, each walked in the order of its hash table. */
  method Flatten<T(==)>(buckets: seq<set<T>>, ghost m: map<T, nat>, ghost ds: seq<nat>, ghost readings: seq<nat>) returns (due: seq<T>)
    requires TakenOut(m, buckets, ds, readings)
    ensures forall x :: x in due <==> x in Members(buckets)
    ensures InDeadlineOrder(m, due)
  {
    due := [];
    var i := 0;
    assert buckets[..0] == [];
    while i < |buckets|
      invariant 0 <= i <= |buckets|
      invariant forall x :: x in due <==> x in Members(buckets[..i])
      invariant InDeadlineOrder(m, due)
      invariant i < |ds| ==> forall x :: x in due ==> m[x] < ds[i]
    {
      var rest := buckets[i];
      while |rest| > 0
        invariant rest <= buckets[i]
        invariant forall x :: x in due <==> x in Members(buckets[..i]) || x in buckets[i] - rest
        invariant InDeadlineOrder(m, due)
        invariant forall x :: x in due ==> m[x] <= ds[i] && x !in rest
        decreases rest
      {
        var x :| x in rest;
        assert x in At(m, ds[i]);
        rest := rest - {x};
        due := due + [x];
      }
      assert rest == {};
      assert buckets[..i + 1][..i] == buckets[..i];
      i := i + 1;
    }
    assert buckets[..i] == buckets;
  }

  // ------------------------------------------------------------------ the class

  /** The two maps are inverse to each other and no bucket is empty. */
  ghost predicate Inverse<T>(timeObject: map<nat, set<T>>, objectTime: map<T, nat>) {
    && (forall t :: t in timeObject ==> timeObject[t] != {})
    && (forall t, o :: t in timeObject && o in timeObject[t] ==> o in objectTime && objectTime[o] == t)
    && (forall o :: o in objectTime ==> objectTime[o] in timeObject && o in timeObject[objectTime[o]])
  }

  lemma InverseKeys<T>(timeObject: map<nat, set<T>>, objectTime: map<T, nat>)
    requires Inverse(timeObject, objectTime)
    ensures timeObject.Keys == objectTime.Values
    ensures forall t :: t in timeObject ==> timeObject[t] == At(objectTime, t)
  {
    forall t | t in timeObject
      ensures t in objectTime.Values
    {
      var o :| o in timeObject[t];
      assert objectTime[o] == t;
    }
  }

  /** One more round: the bucket of the first deadline is taken out. */
  lemma RestStep<T>(m: map<T, nat>, before: map<T, nat>, after: map<T, nat>, ds: seq<nat>, d: nat)
    requires Rest(m, before, ds)
    requires forall o :: o in before ==> d <= before[o]
    requires after == before - At(before, d)
    ensures Rest(m, after, ds + [d])
  {
  }

  lemma TakenOutStep<T>(m: map<T, nat>, before: map<T, nat>, buckets: seq<set<T>>, ds: seq<nat>, readings: seq<nat>, d: nat, now: nat)
    requires Rest(m, before, ds) && TakenOut(m, buckets, ds, readings) && |ds| == |readings|
    requires At(before, d) != {}
    requires Due(d, now) && forall i :: 0 <= i < |readings| ==> readings[i] <= now
    ensures TakenOut(m, buckets + [At(before, d)], ds + [d], readings + [now])
  {
    assert |At(before, d)| != 0;
    var o :| o in At(before, d);
    assert m[o] == d && d !in ds;
    assert At(before, d) == At(m, d);
    assert forall i :: 0 <= i < |ds| ==> ds[i] in ds && ds[i] < d;
    AscendingStep(ds, d);
    MonotoneStep(readings, now);
  }

  lemma AscendingStep(ds: seq<nat>, d: nat)
    requires Ascending(ds) && forall i :: 0 <= i < |ds| ==> ds[i] < d
    ensures Ascending(ds + [d])
  {
  }

  lemma MonotoneStep(readings: seq<nat>, now: nat)
    requires Monotone(readings) && forall i :: 0 <= i < |readings| ==> readings[i] <= now
    ensures Monotone(readings + [now])
  {
  }

  /** Dropping a whole bucket from both maps. */
  lemma InverseDrop<T>(timeObject: map<nat, set<T>>, objectTime: map<T, nat>, t: nat)
    requires Inverse(timeObject, objectTime) && t in timeObject
    ensures Inverse(timeObject - {t}, objectTime - timeObject[t])
  {
    assert forall o :: o in timeObject[t] ==> objectTime[o] == t;
    assert forall u, o :: u in timeObject && u != t && o in timeObject[u] ==> o !in timeObject[t];
  }

  /** Entering an object that is in neither map. */
  lemma InverseEnter<T>(timeObject: map<nat, set<T>>, objectTime: map<T, nat>, obj: T, t: nat)
    requires Inverse(timeObject, objectTime) && obj !in objectTime
    ensures Inverse(timeObject[t := (if t in timeObject then timeObject[t] else {}) + {obj}], objectTime[obj := t])
  {
    assert obj in (if t in timeObject then timeObject[t] else {}) + {obj};
  }

  lemma MinNotNegative<T>(m: map<T, nat>, obj: T, now: nat)
    requires obj in m
    ensures MinTimeout(m, now) >= 0
  {
    assert m[obj] in m.Values;
  }

  /** The first key of the ordered map is the first deadline of any object. */
  lemma FirstIsLeast<T>(timeObject: map<nat, set<T>>, objectTime: map<T, nat>, t: nat)
    requires Inverse(timeObject, objectTime)
    requires t in timeObject && forall u :: u in timeObject ==> t <= u
    ensures forall o :: o in objectTime ==> t <= objectTime[o]
    ensures timeObject[t] == At(objectTime, t)
  {
    InverseKeys(timeObject, objectTime);
  }

  /** The invariant of the extraction loop. */
  ghost predicate Loop<T>(m: map<T, nat>, timeObject: map<nat, set<T>>, objectTime: map<T, nat>,
                          buckets: seq<set<T>>, ds: seq<nat>, readings: seq<nat>, start: nat, now: nat) {
    && Inverse(timeObject, objectTime)
    && Extracting(m, objectTime, buckets, ds, readings) && |readings| == |ds|
    && start <= now
    && (forall i :: 0 <= i < |readings| ==> start <= readings[i] <= now)
  }

  /** One round: the first deadline is due, and its bucket goes. */
  lemma ExtractRound<T>(m: map<T, nat>, timeObject: map<nat, set<T>>, objectTime: map<T, nat>,
                        buckets: seq<set<T>>, ds: seq<nat>, readings: seq<nat>, start: nat, last: nat, d: nat, now: nat)
    requires Loop(m, timeObject, objectTime, buckets, ds, readings, start, last)
    requires d in timeObject && forall u :: u in timeObject ==> d <= u
    requires last <= now && Due(d, now)
    ensures Loop(m, timeObject - {d}, objectTime - timeObject[d], buckets + [timeObject[d]], ds + [d], readings + [now], start, now)
  {
    FirstIsLeast(timeObject, objectTime, d);
    RestStep(m, objectTime, objectTime - timeObject[d], ds, d);
    TakenOutStep(m, objectTime, buckets, ds, readings, d, now);
    InverseDrop(timeObject, objectTime, d);
  }

  /** The loop stops at the first deadline that is not due. */
  lemma ExtractStop<T>(m: map<T, nat>, timeObject: map<nat, set<T>>, objectTime: map<T, nat>,
                       buckets: seq<set<T>>, ds: seq<nat>, readings: seq<nat>, start: nat, last: nat, d: nat, now: nat)
    requires Loop(m, timeObject, objectTime, buckets, ds, readings, start, last)
    requires d in timeObject && forall u :: u in timeObject ==> d <= u
    requires last <= now && !Due(d, now)
    ensures Extraction(m, objectTime, buckets, ds, readings + [now])
    ensures forall i :: 0 <= i < |readings + [now]| ==> start <= (readings + [now])[i] <= now
  {
    FirstIsLeast(timeObject, objectTime, d);
    MonotoneStep(readings, now);
    forall o | o in objectTime
      ensures !Due(m[o], now)
    {
      DueIff(d, now);
      DueIff(m[o], now);
    }
  }

  /** The loop runs out of deadlines. */
  lemma ExtractEmpty<T>(m: map<T, nat>, timeObject: map<nat, set<T>>, objectTime: map<T, nat>,
                        buckets: seq<set<T>>, ds: seq<nat>, readings: seq<nat>, start: nat, now: nat)
    requires Loop(m, timeObject, objectTime, buckets, ds, readings, start, now)
    requires |timeObject| == 0
    ensures Extraction(m, objectTime, buckets, ds, readings)
    ensures forall i :: 0 <= i < |readings| ==> start <= readings[i] <= now
  {
    assert timeObject == map[];
  }

  class ObjectsTimer<T(==)> {
    var timeObject: map<nat, set<T>>
    var objectTime: map<T, nat>

    ghost predicate Valid()
      reads this
    {
      Inverse(timeObject, objectTime)
    }

    /** The one map both fields stand for: object to deadline. */
    ghost function Model(): map<T, nat>
      reads this
    {
      objectTime
    }

    constructor ()
      ensures Valid() && Model() == map[]
    {
      timeObject, objectTime := map[], map[];
    }

    /** size(): the number of deadlines; only compared with 0. */
    method Size() returns (n: nat)
      requires Valid()
      ensures n == |Model().Values|
      ensures n == 0 <==> Model() == map[]
    {
      InverseKeys(timeObject, objectTime);
      assert |timeObject| == |timeObject.Keys|;
      if o :| o in objectTime {
        assert objectTime[o] in objectTime.Values;
      }
      n := |timeObject|;
    }

    method GetMinTimeoutMilliseconds(now: nat) returns (r: int)
      requires Valid()
      ensures r == MinTimeout(Model(), now)
    {
      InverseKeys(timeObject, objectTime);
      if |timeObject| == 0 {
        assert timeObject.Keys == {};
        return -1;
      }
      var begin := First();
      assert begin == Least(objectTime.Values);
      r := AsInt32(WholeMillis(begin - now));
      if r <= 0 {
        r := 0;
      }
    }

    /** time_object_.begin()->first: the ordered map's first key. */
    method First() returns (t: nat)
      requires timeObject.Keys != {}
      ensures t in timeObject && forall u :: u in timeObject ==> t <= u
    {
      LeastExists(timeObject.Keys);
      t :| t in timeObject.Keys && IsLeast(t, timeObject.Keys);
    }

    method RemoveTimeout(obj: T) returns (found: bool)
      requires Valid()
      modifies this
      ensures Valid()
      ensures found <==> obj in old(Model())
      ensures Model() == old(Model()) - {obj}
    {
      if obj !in objectTime {
        assert objectTime == objectTime - {obj};
        return false;
      }
      var t := objectTime[obj];
      timeObject := timeObject[t := timeObject[t] - {obj}];
      if |timeObject[t]| == 0 {
        assert timeObject[t] == {};
        timeObject := timeObject - {t};
      }
      objectTime := objectTime - {obj};
      found := true;
    }

    /** Two clock readings: one for the deadline, one for the returned minimum. */
    method RegisterTimeout(msec: nat, obj: T, now: nat, now': nat) returns (r: int)
      requires Valid()
      modifies this
      ensures Valid()
      ensures Model() == old(Model())[obj := now + msec * MILLI]
      ensures r == MinTimeout(Model(), now')
      ensures r >= 0
    {
      hide MinTimeout;
      var _ := RemoveTimeout(obj);
      var t := now + msec * MILLI;
      InverseEnter(timeObject, objectTime, obj, t);
      objectTime := objectTime[obj := t];
      timeObject := timeObject[t := (if t in timeObject then timeObject[t] else {}) + {obj}];
      r := GetMinTimeoutMilliseconds(now');
      MinNotNegative(Model(), obj, now');
    }

    /** The loop reads the clock once per deadline, between `start`, the latest
        reading made before the call, and `later`, its own last one. */
    method ExtractTimeoutObjects(start: nat) returns (buckets: seq<set<T>>, later: nat, ghost ds: seq<nat>, ghost readings: seq<nat>)
      requires Valid()
      modifies this
      ensures Valid()
      ensures Extraction(old(Model()), Model(), buckets, ds, readings)
      ensures start <= later && forall i :: 0 <= i < |readings| ==> start <= readings[i] <= later
    {
      buckets, ds, readings := [], [], [];
      ghost var m := objectTime;
      later := start;
      while |timeObject| != 0
        invariant Loop(m, timeObject, objectTime, buckets, ds, readings, start, later)
        decreases |timeObject|
      {
        assert timeObject.Keys != {};
        var begin := First();
        var last := later;
        later :| last <= later;
        if !Due(begin, later) {
          ExtractStop(m, timeObject, objectTime, buckets, ds, readings, start, last, begin, later);
          readings := readings + [later];
          return;
        }
        ExtractRound(m, timeObject, objectTime, buckets, ds, readings, start, last, begin, later);
        var bucket := timeObject[begin];
        objectTime, timeObject := objectTime - bucket, timeObject - {begin};
        buckets, ds, readings := buckets + [bucket], ds + [begin], readings + [later];
      }
      ExtractEmpty(m, timeObject, objectTime, buckets, ds, readings, start, later);
    }
  }
}
