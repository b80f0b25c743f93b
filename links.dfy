/** A link of the mechanism: its joints, its reference joints and angles, and the three
    joint-pair tables keyed by the packed index `numJoints * i + j` of the joints' positions
    in the link's joint list. Doubles are modelled as reals; what joint.cs, Math and StarMath
    compute is passed in as uninterpreted functions (`Surroundings`). */
module Links {
  import opened Results
  import Constants

  datatype JointType = R | P | RP | G

  /** A joint, with the members a link reads or writes. */
  class Joint {
    const jointType: JointType
    const xInitial: real
    const yInitial: real
    var x: real
    var y: real
    var initSlideAngle: real

    constructor (jointType: JointType, xInitial: real, yInitial: real, initSlideAngle: real)
      ensures this.jointType == jointType && this.xInitial == xInitial && this.yInitial == yInitial
      ensures x == xInitial && y == yInitial && this.initSlideAngle == initSlideAngle
    {
      this.jointType := jointType;
      this.xInitial := xInitial;
      this.yInitial := yInitial;
      x := xInitial;
      y := yInitial;
      this.initSlideAngle := initSlideAngle;
    }
  }

  /** What a link asks of its joints and of the numeric libraries, for one link. */
  datatype Surroundings = Surroundings(
    slides: Joint -> bool,                          // joint.SlidingWithRespectTo(link)
    isFixed: Joint -> bool,                         // joint.FixedWithRespectTo(link)
    slideAngle: Joint -> real,                      // joint.SlideAngle
    distance: (real, real, real, real) -> real,     // Constants.distance, the root of distanceSqared
    atan2: (real, real) -> real,                    // Math.Atan2 inside Constants.angle
    slideOffset: (Joint, Joint) -> real)            // the crossProduct2 addSlideDictionaryEntry stores

  // ---------------------------------------------------------------------------------------
  // The packed pair key

  /** The key of the ordered pair (i, j) in a link of n joints. */
  function Key(n: int, i: int, j: int): int
  {
    n * i + j
  }

  /** The key lengthBetween and SetLength use: the smaller index first. */
  function CanonicalKey(n: int, i: int, j: int): int
  {
    if i > j then Key(n, j, i) else Key(n, i, j)
  }

  /** The canonical key does not depend on the order of the two positions: it is the key of the
      smaller one first. */
  lemma CanonicalKeySymmetric(n: int, i: int, j: int)
    ensures CanonicalKey(n, i, j) == CanonicalKey(n, j, i) == Key(n, Min(i, j), Max(i, j))
  {
  }

  lemma MulAtLeast(n: int, d: int)
    requires n > 0 && d >= 1
    ensures n * d >= n
  {
    assert n * d == n * (d - 1) + n;
    if d > 1 {
      MulAtLeast(n, d - 1);
    }
  }

  /** The key is injective as long as the second index is a valid position. */
  lemma KeyInjective(n: int, i: int, j: int, a: int, b: int)
    requires n > 0 && 0 <= j < n && 0 <= b < n
    requires Key(n, i, j) == Key(n, a, b)
    ensures i == a && j == b
  {
    assert n * (i - a) == b - j;
    if i > a {
      MulAtLeast(n, i - a);
    } else if i < a {
      assert n * (a - i) == j - b;
      MulAtLeast(n, a - i);
    }
  }

  /** Two different pairs of positions never share a key. */
  lemma KeysDistinct(n: int, i: int, j: int, a: int, b: int)
    requires 0 <= i < n && 0 <= j < n && 0 <= a < n && 0 <= b < n
    requires i != a || j != b
    ensures Key(n, i, j) != Key(n, a, b)
  {
    if Key(n, i, j) == Key(n, a, b) {
      KeyInjective(n, i, j, a, b);
    }
  }

  /** Every key of a pair of positions lies in [0, n * n). */
  lemma KeyBounds(n: int, i: int, j: int)
    requires 0 <= i < n && 0 <= j < n
    ensures 0 <= Key(n, i, j) < n * n
  {
    assert n * i <= n * (n - 1);
  }

  lemma DivModOfKey(n: int, i: int, j: int)
    requires n > 0 && 0 <= j < n
    ensures Key(n, i, j) / n == i && Key(n, i, j) % n == j
  {
    var k := Key(n, i, j);
    KeyInjective(n, k / n, k % n, i, j);
  }

  lemma MulMonotonic(n: nat, a: int, b: int)
    requires a <= b
    ensures n * a <= n * b
  {
    assert n * b - n * a == n * (b - a);
  }

  lemma RowBound(n: nat, k: int)
    requires 0 <= k < n * n
    ensures n > 0 && 0 <= k / n < n
  {
    assert n != 0;
    if k / n >= n {
      MulMonotonic(n, n, k / n);
      assert false;
    }
  }

  /** The first position of the pair a key in [0, n * n) packs. */
  function Row(n: nat, k: int): (i: int)
    requires 0 <= k < n * n
    ensures 0 <= i < n
  {
    RowBound(n, k);
    k / n
  }

  /** The second position of the pair a key in [0, n * n) packs. */
  function Col(n: nat, k: int): (j: int)
    requires 0 <= k < n * n
    ensures 0 <= j < n
  {
    k % n
  }

  /** Every key in [0, n * n) is the key of the pair it packs. */
  lemma KeyOfRowCol(n: nat, k: int)
    requires 0 <= k < n * n
    ensures Key(n, Row(n, k), Col(n, k)) == k
  {
  }

  // ---------------------------------------------------------------------------------------
  // The tables the i < j loop of DetermineLengthsAndReferences builds

  /** The loop over i < j has dealt with the pair of distinct positions {a, b} before it
      reaches (i, j). */
  predicate Visited(i: int, j: int, a: int, b: int)
  {
    var lo := if a < b then a else b;
    var hi := if a < b then b else a;
    a != b && (lo < i || (lo == i && hi < j))
  }


  /** `m`, with key k set to v when `present` holds. */
  function With(m: map<int, real>, present: bool, k: int, v: real): map<int, real>
  {
    if present then m[k := v] else m
  }

  /** Entries under two different keys can be added in either order. */
  lemma WithCommutes(m: map<int, real>, p1: bool, k1: int, v1: real, p2: bool, k2: int, v2: real)
    requires k1 != k2
    ensures With(With(m, p1, k1, v1), p2, k2, v2) == With(With(m, p2, k2, v2), p1, k1, v1)
  {
  }

  /** A table as it stands when the loop reaches (i, j): the key of every visited pair of
      positions (a, b) for which `present(a, b)`, mapped to `value(a, b)`. */
  function Table(n: nat, present: (int, int) -> bool, value: (int, int) -> real, i: int, j: int): (m: map<int, real>)
    ensures forall k :: k in m ==> 0 <= k < n * n
  {
    map k | 0 <= k < n * n && present(Row(n, k), Col(n, k)) && Visited(i, j, Row(n, k), Col(n, k))
      :: value(Row(n, k), Col(n, k))
  }

  lemma TableAt(n: nat, present: (int, int) -> bool, value: (int, int) -> real, i: int, j: int, a: int, b: int)
    requires 0 <= a < n && 0 <= b < n
    ensures Key(n, a, b) in Table(n, present, value, i, j) <==> present(a, b) && Visited(i, j, a, b)
    ensures Key(n, a, b) in Table(n, present, value, i, j) ==> Table(n, present, value, i, j)[Key(n, a, b)] == value(a, b)
  {
    KeyBounds(n, a, b);
    DivModOfKey(n, a, b);
  }

  /** One step (i, j) of the loop, at the key of one pair of positions (a, b). */
  lemma TableStepAt(n: nat, present: (int, int) -> bool, value: (int, int) -> real, i: int, j: int, a: int, b: int)
    requires 0 <= i < j < n && 0 <= a < n && 0 <= b < n
    ensures var after := Table(n, present, value, i, j + 1);
      var expected := With(With(Table(n, present, value, i, j), present(i, j), Key(n, i, j), value(i, j)),
                           present(j, i), Key(n, j, i), value(j, i));
      (Key(n, a, b) in after <==> Key(n, a, b) in expected) &&
      (Key(n, a, b) in after ==> after[Key(n, a, b)] == expected[Key(n, a, b)])
  {
    TableAt(n, present, value, i, j + 1, a, b);
    TableAt(n, present, value, i, j, a, b);
    if (a == i && b == j) || (a == j && b == i) {
      KeysDistinct(n, i, j, j, i);
    } else {
      KeysDistinct(n, a, b, i, j);
      KeysDistinct(n, a, b, j, i);
      assert Visited(i, j + 1, a, b) == Visited(i, j, a, b);
    }
  }

  /** One step (i, j) of the loop adds the entries of (i, j) and of (j, i), and nothing else. */
  lemma TableStep(n: nat, present: (int, int) -> bool, value: (int, int) -> real, i: int, j: int)
    requires 0 <= i < j < n
    ensures Table(n, present, value, i, j + 1) ==
      With(With(Table(n, present, value, i, j), present(i, j), Key(n, i, j), value(i, j)),
           present(j, i), Key(n, j, i), value(j, i))
  {
    var after := Table(n, present, value, i, j + 1);
    var expected := With(With(Table(n, present, value, i, j), present(i, j), Key(n, i, j), value(i, j)),
                         present(j, i), Key(n, j, i), value(j, i));
    KeyBounds(n, i, j);
    KeyBounds(n, j, i);
    assert forall k :: k in expected ==> 0 <= k < n * n;
    forall k | 0 <= k < n * n
      ensures (k in after <==> k in expected) && (k in after ==> after[k] == expected[k])
    {
      KeyOfRowCol(n, k);
      TableStepAt(n, present, value, i, j, Row(n, k), Col(n, k));
    }
  }

  /** Two loop positions that have visited the same pairs have built the same table. */
  lemma TableAgree(n: nat, present: (int, int) -> bool, value: (int, int) -> real, i: int, j: int, i': int, j': int)
    requires forall a, b :: 0 <= a < n && 0 <= b < n ==> (Visited(i, j, a, b) <==> Visited(i', j', a, b))
    ensures Table(n, present, value, i, j) == Table(n, present, value, i', j')
  {
  }

  /** Finishing row i of the loop is starting row i + 1. */
  lemma TableRowDone(n: nat, present: (int, int) -> bool, value: (int, int) -> real, i: int)
    ensures Table(n, present, value, i, n) == Table(n, present, value, i + 1, i + 2)
  {
    TableAgree(n, present, value, i, n, i + 1, i + 2);
  }

  /** Where the loop stops, every pair has been visited. */
  lemma TableDone(n: nat, present: (int, int) -> bool, value: (int, int) -> real, i: int)
    requires (n <= 1 && i == 0) || i == n - 1
    ensures Table(n, present, value, i, i + 1) == Table(n, present, value, n, 0)
  {
    TableAgree(n, present, value, i, i + 1, n, 0);
  }

  /** The table is empty before the loop starts. */
  lemma TableStart(n: nat, present: (int, int) -> bool, value: (int, int) -> real)
    ensures Table(n, present, value, 0, 1) == map[]
  {
  }

  /** The loop stores (a, b) in `lengths`: a comes first and neither joint slides on the link. */
  predicate RigidPair(js: seq<Joint>, s: Surroundings, a: int, b: int)
    requires 0 <= a < |js| && 0 <= b < |js|
  {
    a < b && !s.slides(js[a]) && !s.slides(js[b])
  }

  /** The loop stores (a, b) in `distanceToSlideLine` and `angleFromBlockToJoint`: the joints
      differ and the first one slides on the link or is a prismatic joint. */
  predicate SlideEntry(js: seq<Joint>, s: Surroundings, a: int, b: int)
    requires 0 <= a < |js| && 0 <= b < |js|
  {
    a != b && (s.slides(js[a]) || js[a].jointType == P)
  }

  predicate BothSlide(js: seq<Joint>, s: Surroundings, a: int, b: int)
    requires 0 <= a < |js| && 0 <= b < |js|
  {
    s.slides(js[a]) && s.slides(js[b])
  }

  /** The length stored for a rigid pair: the distance between the initial positions. */
  function LengthValue(js: seq<Joint>, s: Surroundings, a: int, b: int): real
    requires 0 <= a < |js| && 0 <= b < |js|
  {
    s.distance(js[a].xInitial, js[a].yInitial, js[b].xInitial, js[b].yInitial)
  }

  /** The offset stored for (a, b): 0 when both joints slide, else the one addSlideDictionaryEntry
      computes with a as the sliding joint. */
  function OffsetValue(js: seq<Joint>, s: Surroundings, a: int, b: int): real
    requires 0 <= a < |js| && 0 <= b < |js|
  {
    if BothSlide(js, s, a, b) then 0.0 else s.slideOffset(js[a], js[b])
  }

  /** The block angle stored for (a, b): 0 when both joints slide, else the slide angle of a less
      the angle from a to b at their initial positions. */
  function BlockAngleValue(js: seq<Joint>, s: Surroundings, a: int, b: int): real
    requires 0 <= a < |js| && 0 <= b < |js|
  {
    if BothSlide(js, s, a, b) then 0.0
    else s.slideAngle(js[a]) - Constants.Angle(js[a].xInitial, js[a].yInitial, js[b].xInitial, js[b].yInitial, s.atan2)
  }

  function LengthPresent(js: seq<Joint>, s: Surroundings): (int, int) -> bool
  {
    (a: int, b: int) => 0 <= a < |js| && 0 <= b < |js| && RigidPair(js, s, a, b)
  }

  function SlidePresent(js: seq<Joint>, s: Surroundings): (int, int) -> bool
  {
    (a: int, b: int) => 0 <= a < |js| && 0 <= b < |js| && SlideEntry(js, s, a, b)
  }

  function LengthAt(js: seq<Joint>, s: Surroundings): (int, int) -> real
  {
    (a: int, b: int) => if 0 <= a < |js| && 0 <= b < |js| then LengthValue(js, s, a, b) else 0.0
  }

  function OffsetAt(js: seq<Joint>, s: Surroundings): (int, int) -> real
  {
    (a: int, b: int) => if 0 <= a < |js| && 0 <= b < |js| then OffsetValue(js, s, a, b) else 0.0
  }

  function BlockAngleAt(js: seq<Joint>, s: Surroundings): (int, int) -> real
  {
    (a: int, b: int) => if 0 <= a < |js| && 0 <= b < |js| then BlockAngleValue(js, s, a, b) else 0.0
  }

  /** `lengths` once DetermineLengthsAndReferences has run. */
  function InitialLengths(js: seq<Joint>, s: Surroundings): (m: map<int, real>)
    // every entry is that of a rigid pair, and holds the distance between its initial positions
    ensures forall k :: k in m ==>
      0 <= k < |js| * |js| && RigidPair(js, s, Row(|js|, k), Col(|js|, k)) && m[k] == LengthValue(js, s, Row(|js|, k), Col(|js|, k))
  {
    Table(|js|, LengthPresent(js, s), LengthAt(js, s), |js|, 0)
  }

  /** `distanceToSlideLine` once DetermineLengthsAndReferences has run. */
  function InitialOffsets(js: seq<Joint>, s: Surroundings): (m: map<int, real>)
    // every entry is that of a slide entry, and holds its offset
    ensures forall k :: k in m ==>
      0 <= k < |js| * |js| && SlideEntry(js, s, Row(|js|, k), Col(|js|, k)) && m[k] == OffsetValue(js, s, Row(|js|, k), Col(|js|, k))
  {
    Table(|js|, SlidePresent(js, s), OffsetAt(js, s), |js|, 0)
  }

  /** `angleFromBlockToJoint` once DetermineLengthsAndReferences has run. */
  function InitialBlockAngles(js: seq<Joint>, s: Surroundings): (m: map<int, real>)
    // every entry is that of a slide entry, and holds its block angle
    ensures forall k :: k in m ==>
      0 <= k < |js| * |js| && SlideEntry(js, s, Row(|js|, k), Col(|js|, k)) && m[k] == BlockAngleValue(js, s, Row(|js|, k), Col(|js|, k))
  {
    Table(|js|, SlidePresent(js, s), BlockAngleAt(js, s), |js|, 0)
  }

  /** One step (i, j) of the loop on `lengths`: the key of (i, j) is new, and added for a rigid pair. */
  lemma LengthsStep(js: seq<Joint>, s: Surroundings, i: int, j: int)
    requires 0 <= i < j < |js|
    ensures Key(|js|, i, j) !in Table(|js|, LengthPresent(js, s), LengthAt(js, s), i, j)
    ensures Table(|js|, LengthPresent(js, s), LengthAt(js, s), i, j + 1) ==
      With(Table(|js|, LengthPresent(js, s), LengthAt(js, s), i, j), RigidPair(js, s, i, j), Key(|js|, i, j), LengthValue(js, s, i, j))
  {
    TableStep(|js|, LengthPresent(js, s), LengthAt(js, s), i, j);
    TableAt(|js|, LengthPresent(js, s), LengthAt(js, s), i, j, i, j);
  }

  /** One step (i, j) of the loop on a per-ordered-pair table: both keys are new, and each is
      added when its pair is a slide entry. */
  lemma SlideTableStep(js: seq<Joint>, s: Surroundings, value: (int, int) -> real, i: int, j: int)
    requires 0 <= i < j < |js|
    ensures Key(|js|, i, j) != Key(|js|, j, i)
    ensures Key(|js|, i, j) !in Table(|js|, SlidePresent(js, s), value, i, j)
    ensures Key(|js|, j, i) !in Table(|js|, SlidePresent(js, s), value, i, j)
    ensures Table(|js|, SlidePresent(js, s), value, i, j + 1) ==
      With(With(Table(|js|, SlidePresent(js, s), value, i, j), SlideEntry(js, s, i, j), Key(|js|, i, j), value(i, j)),
           SlideEntry(js, s, j, i), Key(|js|, j, i), value(j, i))
  {
    TableStep(|js|, SlidePresent(js, s), value, i, j);
    TableAt(|js|, SlidePresent(js, s), value, i, j, i, j);
    TableAt(|js|, SlidePresent(js, s), value, i, j, j, i);
    KeysDistinct(|js|, i, j, j, i);
  }

  // ---------------------------------------------------------------------------------------
  // Joint lookup and the reference joints

  /** `List.IndexOf`: the first position of j in js, or -1 when js does not hold j. */
  function IndexOf(js: seq<Joint>, j: Joint): (r: int)
    ensures -1 <= r < |js|
    ensures r == -1 <==> j !in js
    ensures r >= 0 ==> js[r] == j && forall k :: 0 <= k < r ==> js[k] != j
  {
    if |js| == 0 then -1
    else if js[0] == j then 0
    else
      var r := IndexOf(js[1..], j);
      if r == -1 then -1 else r + 1
  }

  /** No joint occurs twice. */
  predicate Distinct(js: seq<Joint>)
  {
    forall a, b :: 0 <= a < b < |js| ==> js[a] != js[b]
  }

  /** In a list without repeats, IndexOf finds each joint at its own position. */
  lemma IndexOfDistinct(js: seq<Joint>, k: int)
    requires Distinct(js) && 0 <= k < |js|
    ensures IndexOf(js, js[k]) == k
  {
  }

  /** Joint a comes before joint b in `OrderBy(j => j.xInitial)`, a stable sort. */
  predicate SortsBefore(js: seq<Joint>, a: int, b: int)
    requires 0 <= a < |js| && 0 <= b < |js|
  {
    js[a].xInitial < js[b].xInitial || (js[a].xInitial == js[b].xInitial && a < b)
  }

  /** r is the first fixed joint, in that order, among the first `upTo` joints. */
  predicate FirstFixed(js: seq<Joint>, s: Surroundings, r: int, upTo: int)
    requires upTo <= |js|
  {
    0 <= r < upTo && s.isFixed(js[r]) &&
    forall k :: 0 <= k < upTo && k != r && s.isFixed(js[k]) ==> SortsBefore(js, r, k)
  }

  /** r2 is the second fixed joint, after r1, among the first `upTo` joints. */
  predicate SecondFixed(js: seq<Joint>, s: Surroundings, r1: int, r2: int, upTo: int)
    requires upTo <= |js|
  {
    0 <= r2 < upTo && r2 != r1 && s.isFixed(js[r2]) &&
    forall k :: 0 <= k < upTo && k != r1 && k != r2 && s.isFixed(js[k]) ==> SortsBefore(js, r2, k)
  }

  predicate HasFixed(js: seq<Joint>, s: Surroundings)
  {
    exists k :: 0 <= k < |js| && s.isFixed(js[k])
  }

  /** `fixedJoints.Count < 2`. */
  predicate FewerThanTwoFixed(js: seq<Joint>, s: Surroundings)
  {
    forall a, b :: 0 <= a < b < |js| && s.isFixed(js[a]) ==> !s.isFixed(js[b])
  }

  /** `fixedJoints[0]` and `fixedJoints[1]` are each determined by the list. */
  lemma FixedOrderUnique(js: seq<Joint>, s: Surroundings, r1: int, r2: int, q1: int, q2: int)
    requires FirstFixed(js, s, r1, |js|) && FirstFixed(js, s, q1, |js|)
    ensures r1 == q1
    ensures SecondFixed(js, s, r1, r2, |js|) && SecondFixed(js, s, q1, q2, |js|) ==> r2 == q2
  {
  }

  /** The positions of `fixedJoints[0]` and, when there is one, `fixedJoints[1]`, where
      `fixedJoints` is the list of fixed joints in order of initial x. */
  method FirstTwoFixed(js: seq<Joint>, s: Surroundings) returns (first: Option<nat>, second: Option<nat>)
    ensures first.Some? <==> HasFixed(js, s)
    ensures first.Some? ==> FirstFixed(js, s, first.value, |js|)
    ensures second.Some? ==> first.Some? && SecondFixed(js, s, first.value, second.value, |js|)
    ensures second.None? <==> FewerThanTwoFixed(js, s)
  {
    first, second := None, None;
    var k := 0;
    while k < |js|
      invariant 0 <= k <= |js|
      invariant first.None? ==> forall m :: 0 <= m < k ==> !s.isFixed(js[m])
      invariant first.Some? ==> FirstFixed(js, s, first.value, k)
      invariant second.Some? ==> first.Some? && SecondFixed(js, s, first.value, second.value, k)
      invariant first.Some? && second.None? ==> forall m :: 0 <= m < k && m != first.value ==> !s.isFixed(js[m])
    {
      if s.isFixed(js[k]) {
        if first.None? {
          first := Some(k);
        } else if js[k].xInitial < js[first.value].xInitial {
          second := first;
          first := Some(k);
        } else if second.None? || js[k].xInitial < js[second.value].xInitial {
          second := Some(k);
        }
      }
      k := k + 1;
    }
    if first.Some? {
      assert s.isFixed(js[first.value]);
    }
  }

  // ---------------------------------------------------------------------------------------
  // MaxLength and TotalLength, over the absolute values of the stored lengths

  ghost function Pick(m: map<int, real>): (k: int)
    requires m != map[]
    ensures k in m
  {
    PickExists(m);
    var k :| k in m;
    k
  }

  lemma PickExists(m: map<int, real>)
    requires m != map[]
    ensures exists k :: k in m
  {
    if forall k :: k !in m {
      assert false;
    }
  }

  /** `Values.Sum(v => Math.Abs(v))`. */
  ghost function SumAbs(m: map<int, real>): (r: real)
    ensures r >= 0.0
    decreases |m|
  {
    if m == map[] then 0.0
    else Constants.Abs(m[Pick(m)]) + SumAbs(m - {Pick(m)})
  }

  /** `Values.Max(v => Math.Abs(v))` of a non-empty map. */
  ghost function MaxAbs(m: map<int, real>): (r: real)
    requires m != map[]
    ensures forall k :: k in m ==> Constants.Abs(m[k]) <= r
    ensures exists k :: k in m && Constants.Abs(m[k]) == r
    decreases |m|
  {
    var k := Pick(m);
    var rest := m - {k};
    if rest == map[] then
      assert forall k' :: k' in m && k' != k ==> k' in rest;
      Constants.Abs(m[k])
    else
      var r := MaxAbs(rest);
      var w :| w in rest && Constants.Abs(rest[w]) == r;
      assert w in m && m[w] == rest[w];
      assert forall k' :: k' in m && k' != k ==> k' in rest && rest[k'] == m[k'];
      if Constants.Abs(m[k]) > r then Constants.Abs(m[k]) else r
  }

  /** Every term of the sum is at most the sum. */
  lemma {:induction false} AbsBelowSum(m: map<int, real>, k: int)
    requires k in m
    ensures Constants.Abs(m[k]) <= SumAbs(m)
    decreases |m|
  {
    var p := Pick(m);
    if k != p {
      AbsBelowSum(m - {p}, k);
    }
  }

  /** `0 <= MaxLength <= TotalLength` when there is a length. */
  lemma MaxAbsWithinSum(m: map<int, real>)
    requires m != map[]
    ensures 0.0 <= MaxAbs(m) <= SumAbs(m)
  {
    var r := MaxAbs(m);
    var k :| k in m && Constants.Abs(m[k]) == r;
    AbsBelowSum(m, k);
  }

  // ---------------------------------------------------------------------------------------
  // findOrthoPoint

  /** Math.PI. */
  const Pi: real := 3.141592653589793

  /** 1 / t differs from -t, so the perpendicular of a sloped line is never parallel to it. */
  lemma NegativeReciprocalDiffers(t: real)
    requires t != 0.0
    ensures t != -1.0 / t
  {
  }

  /** The point of the slide line of `slidePt`, at `slideAngle`, closest to `refPt`; the joints'
      current positions stand for the two joints. */
  function FindOrthoPoint(refPt: Constants.Point, slidePt: Constants.Point, slideAngle: real, tan: real -> real): (r: Constants.XPoint)
    // a horizontal slide: the point of the slide line straight above or below the reference
    ensures Constants.SameCloseZero(slideAngle) ==>
      r == Constants.XPoint(Constants.Finite(refPt.x), Constants.Finite(slidePt.y))
    // a vertical slide: the point of the slide line level with the reference
    ensures !Constants.SameCloseZero(slideAngle) && Constants.SameClose(Constants.Abs(slideAngle), Pi / 2.0) ==>
      r == Constants.XPoint(Constants.Finite(slidePt.x), Constants.Finite(refPt.y))
    // otherwise: on the slide line, with the reference point off it along the perpendicular
    ensures !Constants.SameCloseZero(slideAngle) && !Constants.SameClose(Constants.Abs(slideAngle), Pi / 2.0) && tan(slideAngle) != 0.0 ==>
      r.x.Finite? && r.y.Finite? &&
      Constants.OnLine(slidePt, tan(slideAngle), Constants.Point(r.x.value, r.y.value)) &&
      (refPt.x - r.x.value) + tan(slideAngle) * (refPt.y - r.y.value) == 0.0
    // a slope of zero outside the tolerance: -1 / 0 is infinite and the result NaN
    ensures !Constants.SameCloseZero(slideAngle) && !Constants.SameClose(Constants.Abs(slideAngle), Pi / 2.0) && tan(slideAngle) == 0.0 ==>
      r == Constants.NoIntersection
  {
    if Constants.SameCloseZero(slideAngle) then Constants.XPoint(Constants.Finite(refPt.x), Constants.Finite(slidePt.y))
    else if Constants.SameClose(Constants.Abs(slideAngle), Pi / 2.0) then Constants.XPoint(Constants.Finite(slidePt.x), Constants.Finite(refPt.y))
    else if tan(slideAngle) == 0.0 then Constants.NoIntersection
    else
      var p := OrthoFoot(refPt, slidePt, tan(slideAngle));
      Constants.XPoint(Constants.Finite(p.x), Constants.Finite(p.y))
  }

  /** The general branch: slope1 = t, slope2 = -1 / t, and the crossing of the two lines. */
  function OrthoFoot(refPt: Constants.Point, slidePt: Constants.Point, t: real): (p: Constants.Point)
    requires t != 0.0
    ensures Constants.OnLine(slidePt, t, p)
    ensures (refPt.x - p.x) + t * (refPt.y - p.y) == 0.0
  {
    var slope2 := -1.0 / t;
    NegativeReciprocalDiffers(t);
    var x := Constants.CrossingX(slidePt, t, refPt, slope2);
    var y := Constants.LineAt(slidePt, t, x);
    assert Constants.OnLine(refPt, slope2, Constants.Point(x, y));
    assert t * (refPt.y - y) == t * (slope2 * (refPt.x - x));
    assert t * slope2 == -1.0;
    Constants.Point(x, y)
  }

  // ---------------------------------------------------------------------------------------
  // The link

  /** A read of a `Dictionary<int, double>` indexer: the entry, or the missing-key error. */
  function LookUp(m: map<int, real>, k: int): (r: Result<real>)
    ensures r.Ok? <==> k in m
    ensures r.Ok? ==> r.value == m[k]
    ensures r.Err? ==> r.error == KeyNotFound
  {
    if k in m then Ok(m[k]) else Err(KeyNotFound)
  }

  function Min(a: int, b: int): int { if a < b then a else b }
  function Max(a: int, b: int): int { if a < b then b else a }

  /** A write under the canonical key of one pair of positions leaves the entry of every other
      pair as it was. */
  lemma CanonicalWriteKeepsOthers(m: map<int, real>, n: int, i: int, j: int, a: int, b: int, v: real)
    requires 0 <= i < n && 0 <= j < n && 0 <= a < n && 0 <= b < n
    requires Min(a, b) != Min(i, j) || Max(a, b) != Max(i, j)
    ensures LookUp(m[CanonicalKey(n, i, j) := v], CanonicalKey(n, a, b)) == LookUp(m, CanonicalKey(n, a, b))
  {
    KeysDistinct(n, Min(i, j), Max(i, j), Min(a, b), Max(a, b));
  }

  /** The length stored in `m` for two joints of `js`, as lengthBetween reads it: 0 for a joint
      with itself, else the entry under the key of their positions, the smaller first. */
  function LengthIn(js: seq<Joint>, n: int, m: map<int, real>, joint1: Joint, joint2: Joint): (r: Result<real>)
    ensures joint1 == joint2 ==> r == Ok(0.0)
    ensures r.Err? ==> r.error == KeyNotFound
  {
    if joint1 == joint2 then Ok(0.0)
    else
      var i := IndexOf(js, joint1);
      var j := IndexOf(js, joint2);
      if i > j then LookUp(m, n * j + i) else LookUp(m, n * i + j)
  }

  /** The signed offset stored in `m` for two joints of `js`, as DistanceBetweenSlides reads
      it: 0 for a joint with itself; the entry of (slide, fixed) when there is one, else the
      negated entry of (fixed, slide). */
  function DistanceIn(js: seq<Joint>, n: int, m: map<int, real>, slidingJoint: Joint, referenceJoint: Joint): (r: Result<real>)
    ensures slidingJoint == referenceJoint ==> r == Ok(0.0)
    ensures r.Err? ==> r.error == KeyNotFound
  {
    if slidingJoint == referenceJoint then Ok(0.0)
    else
      var slideIndex := IndexOf(js, slidingJoint);
      var fixedIndex := IndexOf(js, referenceJoint);
      var index := n * slideIndex + fixedIndex;
      if index in m then Ok(m[index])
      else
        match LookUp(m, n * fixedIndex + slideIndex)
        case Ok(v) => Ok(-v)
        case Err(e) => Err(e)
  }

  /** The block angle stored in `m` for two joints of `js`, as angleOfBlockToJoint reads it: 0
      for a joint with itself, else the entry of the ordered pair. */
  function AngleIn(js: seq<Joint>, n: int, m: map<int, real>, blockJoint: Joint, referenceJoint: Joint): (r: Result<real>)
    ensures blockJoint == referenceJoint ==> r == Ok(0.0)
    ensures r.Err? ==> r.error == KeyNotFound
  {
    if blockJoint == referenceJoint then Ok(0.0)
    else
      var i := IndexOf(js, blockJoint);
      var j := IndexOf(js, referenceJoint);
      LookUp(m, n * i + j)
  }

  /** For two different joints, LengthIn reads under the canonical key of their positions. */
  lemma LengthInIsCanonical(js: seq<Joint>, n: int, m: map<int, real>, joint1: Joint, joint2: Joint)
    requires joint1 != joint2
    ensures LengthIn(js, n, m, joint1, joint2) == LookUp(m, CanonicalKey(n, IndexOf(js, joint1), IndexOf(js, joint2)))
  {
  }

  /** Writing under the key of (joint1, joint2) leaves the length of every other pair of joints
      of the list as it was. */
  lemma LengthInKeepsOthers(js: seq<Joint>, m: map<int, real>, joint1: Joint, joint2: Joint, length: real)
    requires joint1 != joint2
    ensures forall p, q :: p in js && q in js && !(p == joint1 && q == joint2) && !(p == joint2 && q == joint1) ==>
      LengthIn(js, |js|, m[CanonicalKey(|js|, IndexOf(js, joint1), IndexOf(js, joint2)) := length], p, q) == LengthIn(js, |js|, m, p, q)
  {
    forall p, q | p in js && q in js && !(p == joint1 && q == joint2) && !(p == joint2 && q == joint1)
      ensures LengthIn(js, |js|, m[CanonicalKey(|js|, IndexOf(js, joint1), IndexOf(js, joint2)) := length], p, q) == LengthIn(js, |js|, m, p, q)
    {
      if p != q {
        WriteKeepsPair(js, m, joint1, joint2, p, q, length);
        LengthInIsCanonical(js, |js|, m, p, q);
        LengthInIsCanonical(js, |js|, m[CanonicalKey(|js|, IndexOf(js, joint1), IndexOf(js, joint2)) := length], p, q);
      }
    }
  }

  /** One pair (p, q) of LengthInKeepsOthers. */
  lemma WriteKeepsPair(js: seq<Joint>, m: map<int, real>, joint1: Joint, joint2: Joint, p: Joint, q: Joint, length: real)
    requires p in js && q in js && p != q && joint1 != joint2
    requires !(p == joint1 && q == joint2) && !(p == joint2 && q == joint1)
    ensures LookUp(m[CanonicalKey(|js|, IndexOf(js, joint1), IndexOf(js, joint2)) := length], CanonicalKey(|js|, IndexOf(js, p), IndexOf(js, q))) ==
            LookUp(m, CanonicalKey(|js|, IndexOf(js, p), IndexOf(js, q)))
  {
    var n := |js|;
    var i, j := IndexOf(js, joint1), IndexOf(js, joint2);
    var a, b := IndexOf(js, p), IndexOf(js, q);
    if 0 <= i && 0 <= j {
      if Min(a, b) == Min(i, j) && Max(a, b) == Max(i, j) {
        assert false;
      }
      CanonicalWriteKeepsOthers(m, n, i, j, a, b, length);
    } else {
      // the write goes under a negative key, where no pair of positions is stored
      KeyBounds(n, Min(a, b), Max(a, b));
    }
  }

  /** `lengths` after initialisation, read under the key of two different positions. */
  lemma InitialLengthAt(js: seq<Joint>, s: Surroundings, a: int, b: int)
    requires 0 <= a < |js| && 0 <= b < |js| && a != b
    ensures LookUp(InitialLengths(js, s), CanonicalKey(|js|, a, b)) ==
      if !s.slides(js[a]) && !s.slides(js[b]) then Ok(LengthValue(js, s, Min(a, b), Max(a, b))) else Err(KeyNotFound)
  {
    TableAt(|js|, LengthPresent(js, s), LengthAt(js, s), |js|, 0, Min(a, b), Max(a, b));
    assert CanonicalKey(|js|, a, b) == Key(|js|, Min(a, b), Max(a, b));
  }

  /** A per-ordered-pair table after initialisation, read under the key of (a, b). */
  lemma InitialSlideTableAt(js: seq<Joint>, s: Surroundings, value: (int, int) -> real, a: int, b: int)
    requires 0 <= a < |js| && 0 <= b < |js| && a != b
    ensures LookUp(Table(|js|, SlidePresent(js, s), value, |js|, 0), Key(|js|, a, b)) ==
      if SlideEntry(js, s, a, b) then Ok(value(a, b)) else Err(KeyNotFound)
  {
    TableAt(|js|, SlidePresent(js, s), value, |js|, 0, a, b);
  }

  /** LengthIn on the lengths after initialisation, for two different positions. */
  lemma InitialLengthRead(js: seq<Joint>, s: Surroundings, a: int, b: int)
    requires Distinct(js) && 0 <= a < |js| && 0 <= b < |js| && a != b
    ensures LengthIn(js, |js|, InitialLengths(js, s), js[a], js[b]) ==
      if !s.slides(js[a]) && !s.slides(js[b]) then Ok(LengthValue(js, s, Min(a, b), Max(a, b))) else Err(KeyNotFound)
  {
    IndexOfDistinct(js, a);
    IndexOfDistinct(js, b);
    LengthInIsCanonical(js, |js|, InitialLengths(js, s), js[a], js[b]);
    InitialLengthAt(js, s, a, b);
  }

  /** After a write under the key of (joint1, joint2), the length reads back in both orders. */
  lemma LengthInReadsBack(js: seq<Joint>, n: int, m: map<int, real>, joint1: Joint, joint2: Joint, length: real)
    requires joint1 != joint2
    ensures var m' := m[CanonicalKey(n, IndexOf(js, joint1), IndexOf(js, joint2)) := length];
      LengthIn(js, n, m', joint1, joint2) == Ok(length) && LengthIn(js, n, m', joint2, joint1) == Ok(length)
  {
    var m' := m[CanonicalKey(n, IndexOf(js, joint1), IndexOf(js, joint2)) := length];
    LengthInIsCanonical(js, n, m', joint1, joint2);
    LengthInIsCanonical(js, n, m', joint2, joint1);
    assert CanonicalKey(n, IndexOf(js, joint1), IndexOf(js, joint2)) == CanonicalKey(n, IndexOf(js, joint2), IndexOf(js, joint1));
  }

  /** What DistanceBetweenSlides reads after initialisation for two different positions: the
      entry of (a, b) when a slides or is a prismatic joint, else the negated entry of (b, a)
      when b is, else nothing. */
  function InitialDistance(js: seq<Joint>, s: Surroundings, a: int, b: int): Result<real>
    requires 0 <= a < |js| && 0 <= b < |js|
  {
    if SlideEntry(js, s, a, b) then Ok(OffsetValue(js, s, a, b))
    else if SlideEntry(js, s, b, a) then Ok(-OffsetValue(js, s, b, a))
    else Err(KeyNotFound)
  }

  /** DistanceIn on the offsets after initialisation, for two different positions. */
  lemma InitialDistanceAt(js: seq<Joint>, s: Surroundings, a: int, b: int)
    requires Distinct(js) && 0 <= a < |js| && 0 <= b < |js| && a != b
    ensures DistanceIn(js, |js|, InitialOffsets(js, s), js[a], js[b]) == InitialDistance(js, s, a, b)
  {
    var m := InitialOffsets(js, s);
    IndexOfDistinct(js, a);
    IndexOfDistinct(js, b);
    DistanceInAt(js, m, a, b);
    InitialSlideTableAt(js, s, OffsetAt(js, s), a, b);
    InitialSlideTableAt(js, s, OffsetAt(js, s), b, a);
  }

  /** DistanceIn for two different positions of a list without repeats, by keys. */
  lemma DistanceInAt(js: seq<Joint>, m: map<int, real>, a: int, b: int)
    requires Distinct(js) && 0 <= a < |js| && 0 <= b < |js| && a != b
    ensures DistanceIn(js, |js|, m, js[a], js[b]) ==
      if Key(|js|, a, b) in m then Ok(m[Key(|js|, a, b)])
      else if Key(|js|, b, a) in m then Ok(-m[Key(|js|, b, a)])
      else Err(KeyNotFound)
  {
    IndexOfDistinct(js, a);
    IndexOfDistinct(js, b);
  }

  /** AngleIn on the block angles after initialisation, for two different positions. */
  lemma InitialAngleAt(js: seq<Joint>, s: Surroundings, a: int, b: int)
    requires Distinct(js) && 0 <= a < |js| && 0 <= b < |js| && a != b
    ensures AngleIn(js, |js|, InitialBlockAngles(js, s), js[a], js[b]) ==
      if SlideEntry(js, s, a, b) then Ok(BlockAngleValue(js, s, a, b)) else Err(KeyNotFound)
  {
    IndexOfDistinct(js, a);
    IndexOfDistinct(js, b);
    InitialSlideTableAt(js, s, BlockAngleAt(js, s), a, b);
  }

  class Link {
    var joints: seq<Joint>
    var numJoints: int
    const isGround: bool
    var referenceJoint1: Joint?
    var referenceJoint2: Joint?
    /** Rigid lengths, under the key of (i, j) with i < j. */
    var lengths: map<int, real>
    /** Signed offsets of a joint from a slide line, per ordered pair. */
    var distanceToSlideLine: map<int, real>
    /** Angles from a block to a joint, per ordered pair. */
    var angleFromBlockToJoint: map<int, real>
    var name: string
    var angleInitial: real
    var angle: real
    var angleLast: real
    var angleNumerical: real
    var velocity: real
    var velocityLast: real
    var acceleration: real

    /** Each joint occurs once in the link's list. */
    ghost predicate Valid()
      reads this
    {
      Distinct(joints)
    }

    /** `link(name, Joints, IsGround)`. */
    constructor (name: string, joints: seq<Joint>, isGround: bool)
      ensures this.name == name && this.joints == joints && this.isGround == isGround
      ensures numJoints == 0 && referenceJoint1 == null && referenceJoint2 == null
      ensures lengths == map[] && distanceToSlideLine == map[] && angleFromBlockToJoint == map[]
      ensures angleInitial == 0.0 && angle == 0.0 && angleLast == 0.0 && angleNumerical == 0.0
      ensures velocity == 0.0 && velocityLast == 0.0 && acceleration == 0.0
    {
      this.name := name;
      this.joints := joints;
      this.isGround := isGround;
      numJoints := 0;
      referenceJoint1, referenceJoint2 := null, null;
      lengths, distanceToSlideLine, angleFromBlockToJoint := map[], map[], map[];
      angleInitial, angle, angleLast, angleNumerical := 0.0, 0.0, 0.0, 0.0;
      velocity, velocityLast, acceleration := 0.0, 0.0, 0.0;
    }

    /** The private `link()`: an empty joint list and nothing else set. */
    constructor Blank()
      ensures name == "" && joints == [] && !isGround
      ensures numJoints == 0 && referenceJoint1 == null && referenceJoint2 == null
      ensures lengths == map[] && distanceToSlideLine == map[] && angleFromBlockToJoint == map[]
      ensures angleInitial == 0.0 && angle == 0.0 && angleLast == 0.0 && angleNumerical == 0.0
      ensures velocity == 0.0 && velocityLast == 0.0 && acceleration == 0.0
    {
      name := "";
      joints := [];
      isGround := false;
      numJoints := 0;
      referenceJoint1, referenceJoint2 := null, null;
      lengths, distanceToSlideLine, angleFromBlockToJoint := map[], map[], map[];
      angleInitial, angle, angleLast, angleNumerical := 0.0, 0.0, 0.0, 0.0;
      velocity, velocityLast, acceleration := 0.0, 0.0, 0.0;
    }

    /** Picks the reference joints and the initial angle, turns the sliding joints' slide angles
        into angles relative to the link, and fills the three joint-pair tables. Returns false,
        having set only `numJoints`, where the source indexes an empty list of fixed joints. */
    method DetermineLengthsAndReferences(s: Surroundings) returns (ok: bool)
      requires Valid()
      modifies this`numJoints, this`referenceJoint1, this`referenceJoint2, this`angleInitial, this`angle, this`angleLast
      modifies this`angleNumerical, this`lengths, this`distanceToSlideLine, this`angleFromBlockToJoint, joints
      ensures numJoints == |joints|
      ensures forall k :: 0 <= k < |joints| ==> joints[k].x == old(joints[k].x) && joints[k].y == old(joints[k].y)
      ensures ok <==> HasFixed(joints, s)
      ensures !ok ==>
        referenceJoint1 == old(referenceJoint1) && referenceJoint2 == old(referenceJoint2) &&
        angleInitial == old(angleInitial) && angle == old(angle) && angleLast == old(angleLast) &&
        angleNumerical == old(angleNumerical) && lengths == old(lengths) &&
        distanceToSlideLine == old(distanceToSlideLine) && angleFromBlockToJoint == old(angleFromBlockToJoint) &&
        forall k :: 0 <= k < |joints| ==> joints[k].initSlideAngle == old(joints[k].initSlideAngle)
      ensures ok ==> InitialAngleDefined(s, old(referenceJoint2))
      // every sliding joint's slide angle is now relative to the link's initial angle
      ensures ok ==> forall k :: 0 <= k < |joints| ==>
        joints[k].initSlideAngle == old(joints[k].initSlideAngle) - (if s.slides(joints[k]) then angleInitial else 0.0)
      ensures ok ==> lengths == InitialLengths(joints, s)
      ensures ok ==> distanceToSlideLine == InitialOffsets(joints, s)
      ensures ok ==> angleFromBlockToJoint == InitialBlockAngles(joints, s)
      ensures ok ==> Initialised(s)
    {
      numJoints := |joints|;
      ok := DefineInitialLinkAngle(s);
      if ok {
        ghost var referenceJoint2Before := old(referenceJoint2);
        assert InitialAngleDefined(s, referenceJoint2Before);
        FillJointToJointTables(s);
        assert InitialAngleDefined(s, referenceJoint2Before);
      }
    }

    /** The reference joints and the link angles as the first region of DetermineLengthsAndReferences
        leaves them: the first fixed joint in order of initial x is the first reference joint; a
        ground link or one with a single fixed joint has initial angle 0 and keeps its second
        reference; otherwise the second fixed joint is the second reference and the initial angle
        is the angle from the first to the second; the current, numerical and last angles all
        equal the initial one. */
    ghost predicate InitialAngleDefined(s: Surroundings, referenceJoint2Before: Joint?)
      reads this`joints, this`referenceJoint1, this`referenceJoint2, this`angleInitial, this`angle
      reads this`angleNumerical, this`angleLast, joints
    {
      (exists r :: FirstFixed(joints, s, r, |joints|) && referenceJoint1 == joints[r]) &&
      (isGround || FewerThanTwoFixed(joints, s) ==> angleInitial == 0.0 && referenceJoint2 == referenceJoint2Before) &&
      (!isGround && !FewerThanTwoFixed(joints, s) ==>
        exists r1, r2 :: FirstFixed(joints, s, r1, |joints|) && SecondFixed(joints, s, r1, r2, |joints|) &&
          referenceJoint1 == joints[r1] && referenceJoint2 == joints[r2] &&
          angleInitial == Constants.Angle(joints[r1].x, joints[r1].y, joints[r2].x, joints[r2].y, s.atan2)) &&
      angle == angleInitial && angleNumerical == angleInitial && angleLast == angleInitial
    }

    /** The first half of DetermineLengthsAndReferences: the reference joints, the initial angle
        and the sliding joints' slide angles. */
    method DefineInitialLinkAngle(s: Surroundings) returns (ok: bool)
      requires Valid()
      modifies this`referenceJoint1, this`referenceJoint2, this`angleInitial, this`angle, this`angleLast, this`angleNumerical, joints
      ensures forall k :: 0 <= k < |joints| ==> joints[k].x == old(joints[k].x) && joints[k].y == old(joints[k].y)
      ensures ok <==> HasFixed(joints, s)
      ensures !ok ==>
        referenceJoint1 == old(referenceJoint1) && referenceJoint2 == old(referenceJoint2) &&
        angleInitial == old(angleInitial) && angle == old(angle) && angleLast == old(angleLast) &&
        angleNumerical == old(angleNumerical) &&
        forall k :: 0 <= k < |joints| ==> joints[k].initSlideAngle == old(joints[k].initSlideAngle)
      ensures ok ==> InitialAngleDefined(s, old(referenceJoint2))
      ensures ok ==> forall k :: 0 <= k < |joints| ==>
        joints[k].initSlideAngle == old(joints[k].initSlideAngle) - (if s.slides(joints[k]) then angleInitial else 0.0)
    {
      var first, second := FirstTwoFixed(joints, s);
      if first.None? {
        return false;
      }
      ok := true;
      referenceJoint1 := joints[first.value];
      if second.None? || isGround {
        angleInitial := 0.0;
      } else {
        referenceJoint2 := joints[second.value];
        angleInitial := Constants.Angle(referenceJoint1.x, referenceJoint1.y, referenceJoint2.x, referenceJoint2.y, s.atan2);
      }
      angle, angleNumerical, angleLast := angleInitial, angleInitial, angleInitial;
      MakeSlideAnglesRelative(s, angleInitial);
      assert FirstFixed(joints, s, first.value, |joints|) && referenceJoint1 == joints[first.value];
      if second.Some? && !isGround {
        assert SecondFixed(joints, s, first.value, second.value, |joints|) && referenceJoint2 == joints[second.value];
      }
    }

    /** `j.InitSlideAngle -= AngleInitial` for every joint sliding on the link. */
    method MakeSlideAnglesRelative(s: Surroundings, angleInitial: real)
      requires Valid()
      modifies joints
      ensures forall k :: 0 <= k < |joints| ==> joints[k].x == old(joints[k].x) && joints[k].y == old(joints[k].y)
      ensures forall k :: 0 <= k < |joints| ==>
        joints[k].initSlideAngle == old(joints[k].initSlideAngle) - (if s.slides(joints[k]) then angleInitial else 0.0)
    {
      var k := 0;
      while k < |joints|
        invariant 0 <= k <= |joints|
        invariant forall m :: 0 <= m < |joints| ==> joints[m].x == old(joints[m].x) && joints[m].y == old(joints[m].y)
        invariant forall m :: 0 <= m < k ==>
          joints[m].initSlideAngle == old(joints[m].initSlideAngle) - (if s.slides(joints[m]) then angleInitial else 0.0)
        invariant forall m :: k <= m < |joints| ==> joints[m].initSlideAngle == old(joints[m].initSlideAngle)
      {
        if s.slides(joints[k]) {
          joints[k].initSlideAngle := joints[k].initSlideAngle - angleInitial;
        }
        k := k + 1;
      }
    }

    /** The second half of DetermineLengthsAndReferences: the i < j loop over pairs of positions. */
    method FillJointToJointTables(s: Surroundings)
      requires numJoints == |joints|
      modifies this`lengths, this`distanceToSlideLine, this`angleFromBlockToJoint
      ensures lengths == InitialLengths(joints, s)
      ensures distanceToSlideLine == InitialOffsets(joints, s)
      ensures angleFromBlockToJoint == InitialBlockAngles(joints, s)
    {
      lengths, distanceToSlideLine, angleFromBlockToJoint := map[], map[], map[];
      ghost var n := |joints|;
      TableStart(n, LengthPresent(joints, s), LengthAt(joints, s));
      TableStart(n, SlidePresent(joints, s), OffsetAt(joints, s));
      TableStart(n, SlidePresent(joints, s), BlockAngleAt(joints, s));
      var i := 0;
      while i < |joints| - 1
        invariant 0 <= i && (i < |joints| || i == 0)
        invariant TablesReached(s, i, i + 1)
      {
        AddRow(s, i);
        i := i + 1;
      }
      TableDone(n, LengthPresent(joints, s), LengthAt(joints, s), i);
      TableDone(n, SlidePresent(joints, s), OffsetAt(joints, s), i);
      TableDone(n, SlidePresent(joints, s), BlockAngleAt(joints, s), i);
    }

    /** The three tables are as the i < j loop leaves them when it reaches (i, j). */
    ghost predicate TablesReached(s: Surroundings, i: int, j: int)
      reads this
    {
      lengths == Table(|joints|, LengthPresent(joints, s), LengthAt(joints, s), i, j) &&
      distanceToSlideLine == Table(|joints|, SlidePresent(joints, s), OffsetAt(joints, s), i, j) &&
      angleFromBlockToJoint == Table(|joints|, SlidePresent(joints, s), BlockAngleAt(joints, s), i, j)
    }

    /** One pass of the inner loop, over the pairs (i, j) with i < j. */
    method AddRow(s: Surroundings, i: int)
      requires numJoints == |joints| && 0 <= i < |joints| - 1
      requires TablesReached(s, i, i + 1)
      modifies this`lengths, this`distanceToSlideLine, this`angleFromBlockToJoint
      ensures TablesReached(s, i + 1, i + 2)
    {
      var j := i + 1;
      while j < |joints|
        invariant i + 1 <= j <= |joints|
        invariant TablesReached(s, i, j)
      {
        LengthsStep(joints, s, i, j);
        SlideTableStep(joints, s, OffsetAt(joints, s), i, j);
        SlideTableStep(joints, s, BlockAngleAt(joints, s), i, j);
        AddPairEntries(s, i, j);
        j := j + 1;
      }
      TableRowDone(|joints|, LengthPresent(joints, s), LengthAt(joints, s), i);
      TableRowDone(|joints|, SlidePresent(joints, s), OffsetAt(joints, s), i);
      TableRowDone(|joints|, SlidePresent(joints, s), BlockAngleAt(joints, s), i);
    }

    /** The body of the i < j loop for one pair: the entries of (i, j) and of (j, i). */
    method AddPairEntries(s: Surroundings, i: int, j: int)
      requires numJoints == |joints| && 0 <= i < j < |joints|
      requires Key(numJoints, i, j) != Key(numJoints, j, i)
      requires Key(numJoints, i, j) !in lengths
      requires Key(numJoints, i, j) !in distanceToSlideLine && Key(numJoints, j, i) !in distanceToSlideLine
      requires Key(numJoints, i, j) !in angleFromBlockToJoint && Key(numJoints, j, i) !in angleFromBlockToJoint
      modifies this`lengths, this`distanceToSlideLine, this`angleFromBlockToJoint
      ensures lengths == With(old(lengths), RigidPair(joints, s, i, j), Key(numJoints, i, j), LengthValue(joints, s, i, j))
      ensures distanceToSlideLine ==
        With(With(old(distanceToSlideLine), SlideEntry(joints, s, i, j), Key(numJoints, i, j), OffsetValue(joints, s, i, j)),
             SlideEntry(joints, s, j, i), Key(numJoints, j, i), OffsetValue(joints, s, j, i))
      ensures angleFromBlockToJoint ==
        With(With(old(angleFromBlockToJoint), SlideEntry(joints, s, i, j), Key(numJoints, i, j), BlockAngleValue(joints, s, i, j)),
             SlideEntry(joints, s, j, i), Key(numJoints, j, i), BlockAngleValue(joints, s, j, i))
    {
      var iJoint := joints[i];
      var jJoint := joints[j];
      if s.slides(iJoint) && s.slides(jJoint) {
        AddBothSlide(s, i, j);
      } else if s.slides(iJoint) && !s.slides(jJoint) {
        AddSlideAndOther(s, i, j);
      } else if !s.slides(iJoint) && s.slides(jJoint) {
        ghost var offsets, blockAngles := distanceToSlideLine, angleFromBlockToJoint;
        AddSlideAndOther(s, j, i);
        WithCommutes(offsets, SlideEntry(joints, s, j, i), Key(numJoints, j, i), OffsetValue(joints, s, j, i),
                     SlideEntry(joints, s, i, j), Key(numJoints, i, j), OffsetValue(joints, s, i, j));
        WithCommutes(blockAngles, SlideEntry(joints, s, j, i), Key(numJoints, j, i), BlockAngleValue(joints, s, j, i),
                     SlideEntry(joints, s, i, j), Key(numJoints, i, j), BlockAngleValue(joints, s, i, j));
      } else {
        AddNeitherSlides(s, i, j);
      }
    }

    /** The first branch of the loop body, both joints sliding: 0 under both keys in the offset
        and block-angle tables. */
    method AddBothSlide(s: Surroundings, i: int, j: int)
      requires numJoints == |joints| && 0 <= i < j < |joints|
      requires s.slides(joints[i]) && s.slides(joints[j])
      requires Key(numJoints, i, j) != Key(numJoints, j, i)
      requires Key(numJoints, i, j) !in distanceToSlideLine && Key(numJoints, j, i) !in distanceToSlideLine
      requires Key(numJoints, i, j) !in angleFromBlockToJoint && Key(numJoints, j, i) !in angleFromBlockToJoint
      modifies this`distanceToSlideLine, this`angleFromBlockToJoint
      ensures distanceToSlideLine ==
        With(With(old(distanceToSlideLine), SlideEntry(joints, s, i, j), Key(numJoints, i, j), OffsetValue(joints, s, i, j)),
             SlideEntry(joints, s, j, i), Key(numJoints, j, i), OffsetValue(joints, s, j, i))
      ensures angleFromBlockToJoint ==
        With(With(old(angleFromBlockToJoint), SlideEntry(joints, s, i, j), Key(numJoints, i, j), BlockAngleValue(joints, s, i, j)),
             SlideEntry(joints, s, j, i), Key(numJoints, j, i), BlockAngleValue(joints, s, j, i))
    {
      assert SlideEntry(joints, s, i, j) && SlideEntry(joints, s, j, i);
      assert OffsetValue(joints, s, i, j) == 0.0 && OffsetValue(joints, s, j, i) == 0.0;
      assert BlockAngleValue(joints, s, i, j) == 0.0 && BlockAngleValue(joints, s, j, i) == 0.0;
      var key := numJoints * i + j;
      angleFromBlockToJoint := angleFromBlockToJoint[key := 0.0];
      distanceToSlideLine := distanceToSlideLine[key := 0.0];
      key := numJoints * j + i;
      angleFromBlockToJoint := angleFromBlockToJoint[key := 0.0];
      distanceToSlideLine := distanceToSlideLine[key := 0.0];
    }

    /** The last branch of the loop body, neither joint sliding: the length of the pair, and the
        entries of each prismatic joint towards the other. */
    method AddNeitherSlides(s: Surroundings, i: int, j: int)
      requires numJoints == |joints| && 0 <= i < j < |joints|
      requires !s.slides(joints[i]) && !s.slides(joints[j])
      requires Key(numJoints, i, j) != Key(numJoints, j, i)
      requires Key(numJoints, i, j) !in lengths
      requires Key(numJoints, i, j) !in distanceToSlideLine && Key(numJoints, j, i) !in distanceToSlideLine
      requires Key(numJoints, i, j) !in angleFromBlockToJoint && Key(numJoints, j, i) !in angleFromBlockToJoint
      modifies this`lengths, this`distanceToSlideLine, this`angleFromBlockToJoint
      ensures lengths == With(old(lengths), RigidPair(joints, s, i, j), Key(numJoints, i, j), LengthValue(joints, s, i, j))
      ensures distanceToSlideLine ==
        With(With(old(distanceToSlideLine), SlideEntry(joints, s, i, j), Key(numJoints, i, j), OffsetValue(joints, s, i, j)),
             SlideEntry(joints, s, j, i), Key(numJoints, j, i), OffsetValue(joints, s, j, i))
      ensures angleFromBlockToJoint ==
        With(With(old(angleFromBlockToJoint), SlideEntry(joints, s, i, j), Key(numJoints, i, j), BlockAngleValue(joints, s, i, j)),
             SlideEntry(joints, s, j, i), Key(numJoints, j, i), BlockAngleValue(joints, s, j, i))
    {
      var iJoint := joints[i];
      var jJoint := joints[j];
      assert RigidPair(joints, s, i, j);
      lengths := lengths[numJoints * i + j := s.distance(iJoint.xInitial, iJoint.yInitial, jJoint.xInitial, jJoint.yInitial)];
      AddBlockEntriesIfPrismatic(s, i, j);
      AddBlockEntriesIfPrismatic(s, j, i);
    }

    /** The two middle branches of the loop body, for a sliding joint at position a and a joint at
        position b that does not slide: the entries of (a, b), and those of (b, a) when b is a
        prismatic joint. */
    method AddSlideAndOther(s: Surroundings, a: int, b: int)
      requires numJoints == |joints| && 0 <= a < |joints| && 0 <= b < |joints| && a != b
      requires s.slides(joints[a]) && !s.slides(joints[b])
      requires Key(numJoints, a, b) != Key(numJoints, b, a)
      requires Key(numJoints, a, b) !in distanceToSlideLine && Key(numJoints, b, a) !in distanceToSlideLine
      requires Key(numJoints, a, b) !in angleFromBlockToJoint && Key(numJoints, b, a) !in angleFromBlockToJoint
      modifies this`distanceToSlideLine, this`angleFromBlockToJoint
      ensures distanceToSlideLine ==
        With(With(old(distanceToSlideLine), SlideEntry(joints, s, a, b), Key(numJoints, a, b), OffsetValue(joints, s, a, b)),
             SlideEntry(joints, s, b, a), Key(numJoints, b, a), OffsetValue(joints, s, b, a))
      ensures angleFromBlockToJoint ==
        With(With(old(angleFromBlockToJoint), SlideEntry(joints, s, a, b), Key(numJoints, a, b), BlockAngleValue(joints, s, a, b)),
             SlideEntry(joints, s, b, a), Key(numJoints, b, a), BlockAngleValue(joints, s, b, a))
    {
      var aJoint := joints[a];
      var bJoint := joints[b];
      assert SlideEntry(joints, s, a, b);
      assert OffsetValue(joints, s, a, b) == s.slideOffset(aJoint, bJoint);
      assert BlockAngleValue(joints, s, a, b) == s.slideAngle(aJoint) - Constants.Angle(aJoint.xInitial, aJoint.yInitial, bJoint.xInitial, bJoint.yInitial, s.atan2);
      AddSlideDictionaryEntry(s, aJoint, bJoint, a, b);
      AddBlockAngleDictionaryEntry(s, aJoint, bJoint, a, b);
      AddBlockEntriesIfPrismatic(s, b, a);
    }

    /** The entries of a joint that does not slide towards another joint: a block angle and a
        slide offset when it is a prismatic joint, nothing otherwise. */
    method AddBlockEntriesIfPrismatic(s: Surroundings, a: int, b: int)
      requires numJoints == |joints| && 0 <= a < |joints| && 0 <= b < |joints| && a != b
      requires !s.slides(joints[a])
      requires Key(numJoints, a, b) !in distanceToSlideLine && Key(numJoints, a, b) !in angleFromBlockToJoint
      modifies this`distanceToSlideLine, this`angleFromBlockToJoint
      ensures distanceToSlideLine ==
        With(old(distanceToSlideLine), SlideEntry(joints, s, a, b), Key(numJoints, a, b), OffsetValue(joints, s, a, b))
      ensures angleFromBlockToJoint ==
        With(old(angleFromBlockToJoint), SlideEntry(joints, s, a, b), Key(numJoints, a, b), BlockAngleValue(joints, s, a, b))
    {
      var aJoint := joints[a];
      var bJoint := joints[b];
      if aJoint.jointType == P {
        assert SlideEntry(joints, s, a, b);
        assert OffsetValue(joints, s, a, b) == s.slideOffset(aJoint, bJoint);
        assert BlockAngleValue(joints, s, a, b) == s.slideAngle(aJoint) - Constants.Angle(aJoint.xInitial, aJoint.yInitial, bJoint.xInitial, bJoint.yInitial, s.atan2);
        AddBlockAngleDictionaryEntry(s, aJoint, bJoint, a, b);
        AddSlideDictionaryEntry(s, aJoint, bJoint, a, b);
      } else {
        assert !SlideEntry(joints, s, a, b);
      }
    }

    /** `addSlideDictionaryEntry`: `Dictionary.Add` of the slide offset, which throws on a key
        already present; the loop never meets one. */
    method AddSlideDictionaryEntry(s: Surroundings, slideJoint: Joint, fixedJoint: Joint, slideIndex: int, fixedIndex: int)
      requires Key(numJoints, slideIndex, fixedIndex) !in distanceToSlideLine
      modifies this`distanceToSlideLine
      ensures distanceToSlideLine ==
        old(distanceToSlideLine)[Key(numJoints, slideIndex, fixedIndex) := s.slideOffset(slideJoint, fixedJoint)]
    {
      var key := numJoints * slideIndex + fixedIndex;
      distanceToSlideLine := distanceToSlideLine[key := s.slideOffset(slideJoint, fixedJoint)];
    }

    /** `addBlockAngleDictionaryEntry`: the slide angle of the block less the angle from the block
        to the reference joint, at their initial positions. */
    method AddBlockAngleDictionaryEntry(s: Surroundings, pJoint: Joint, refJoint: Joint, pIndex: int, refIndex: int)
      requires Key(numJoints, pIndex, refIndex) !in angleFromBlockToJoint
      modifies this`angleFromBlockToJoint
      ensures angleFromBlockToJoint == old(angleFromBlockToJoint)[Key(numJoints, pIndex, refIndex) :=
        s.slideAngle(pJoint) - Constants.Angle(pJoint.xInitial, pJoint.yInitial, refJoint.xInitial, refJoint.yInitial, s.atan2)]
    {
      var key := numJoints * pIndex + refIndex;
      var result := s.slideAngle(pJoint) - Constants.Angle(pJoint.xInitial, pJoint.yInitial, refJoint.xInitial, refJoint.yInitial, s.atan2);
      angleFromBlockToJoint := angleFromBlockToJoint[key := result];
    }

    // -------------------------------------------------------------------------------------
    // Reading the tables back

    /** `lengthBetween`: 0 for a joint with itself, else the entry of `lengths` under the key of
        the two positions, the smaller first; a missing entry is the indexer's KeyNotFound. */
    function LengthBetween(joint1: Joint, joint2: Joint): (r: Result<real>)
      reads this
      ensures joint1 == joint2 ==> r == Ok(0.0)
      ensures r.Err? ==> r.error == KeyNotFound
    {
      LengthIn(joints, numJoints, lengths, joint1, joint2)
    }

    /** `DistanceBetweenSlides`: 0 for a joint with itself; the entry stored for (slide, fixed)
        when there is one, else the negated entry stored for (fixed, slide). */
    function DistanceBetweenSlides(slidingJoint: Joint, referenceJoint: Joint): (r: Result<real>)
      reads this
      ensures slidingJoint == referenceJoint ==> r == Ok(0.0)
      ensures r.Err? ==> r.error == KeyNotFound
    {
      DistanceIn(joints, numJoints, distanceToSlideLine, slidingJoint, referenceJoint)
    }

    /** `angleOfBlockToJoint`: 0 for a joint with itself, else the entry stored for the ordered
        pair. */
    function AngleOfBlockToJoint(blockJoint: Joint, referenceJoint: Joint): (r: Result<real>)
      reads this
      ensures blockJoint == referenceJoint ==> r == Ok(0.0)
      ensures r.Err? ==> r.error == KeyNotFound
    {
      AngleIn(joints, numJoints, angleFromBlockToJoint, blockJoint, referenceJoint)
    }

    /** Lengths are stored once per unordered pair, so they read the same in both orders. */
    lemma LengthBetweenSymmetric(joint1: Joint, joint2: Joint)
      ensures LengthBetween(joint1, joint2) == LengthBetween(joint2, joint1)
    {
      if joint1 != joint2 && IndexOf(joints, joint1) == IndexOf(joints, joint2) {
        assert IndexOf(joints, joint1) == -1;
      }
    }

    /** The tables are as DetermineLengthsAndReferences leaves them. */
    ghost predicate Initialised(s: Surroundings)
      reads this
    {
      Valid() && numJoints == |joints| &&
      lengths == InitialLengths(joints, s) &&
      distanceToSlideLine == InitialOffsets(joints, s) &&
      angleFromBlockToJoint == InitialBlockAngles(joints, s)
    }

    /** After initialisation a length is known exactly between two different joints neither of
        which slides on the link, and it is the distance between their initial positions. */
    lemma LengthBetweenAfterInit(s: Surroundings, a: int, b: int)
      requires Initialised(s) && 0 <= a < |joints| && 0 <= b < |joints|
      ensures a != b && !s.slides(joints[a]) && !s.slides(joints[b]) ==>
        LengthBetween(joints[a], joints[b]) ==
          Ok(s.distance(joints[Min(a, b)].xInitial, joints[Min(a, b)].yInitial, joints[Max(a, b)].xInitial, joints[Max(a, b)].yInitial))
      ensures a != b && (s.slides(joints[a]) || s.slides(joints[b])) ==>
        LengthBetween(joints[a], joints[b]) == Err(KeyNotFound)
    {
      if a != b {
        assert lengths == InitialLengths(joints, s) && numJoints == |joints|;
        assert LengthBetween(joints[a], joints[b]) == LengthIn(joints, |joints|, InitialLengths(joints, s), joints[a], joints[b]);
        InitialLengthRead(joints, s, a, b);
      }
    }

    /** After initialisation the signed offset of (a, b) is the one stored for it when a slides or
        is a prismatic joint, else the negation of the one stored for (b, a) when b is; for a
        pair with neither, there is none. */
    lemma DistanceBetweenSlidesAfterInit(s: Surroundings, a: int, b: int)
      requires Initialised(s) && 0 <= a < |joints| && 0 <= b < |joints| && a != b
      ensures DistanceBetweenSlides(joints[a], joints[b]) == InitialDistance(joints, s, a, b)
    {
      InitialDistanceAt(joints, s, a, b);
    }

    /** Reading a slide offset in the reverse order gives its negation, where only one order is
        stored. */
    lemma DistanceBetweenSlidesReversed(s: Surroundings, a: int, b: int)
      requires Initialised(s) && 0 <= a < |joints| && 0 <= b < |joints| && a != b
      requires SlideEntry(joints, s, a, b) && !SlideEntry(joints, s, b, a)
      ensures DistanceBetweenSlides(joints[a], joints[b]).Ok? && DistanceBetweenSlides(joints[b], joints[a]).Ok?
      ensures DistanceBetweenSlides(joints[b], joints[a]).value == -DistanceBetweenSlides(joints[a], joints[b]).value
    {
      DistanceBetweenSlidesAfterInit(s, a, b);
      DistanceBetweenSlidesAfterInit(s, b, a);
    }

    /** After initialisation the block angle of (a, b) is known exactly when a slides or is a
        prismatic joint: 0 when both joints slide, else the slide angle of a less the angle from
        a to b. */
    lemma AngleOfBlockToJointAfterInit(s: Surroundings, a: int, b: int)
      requires Initialised(s) && 0 <= a < |joints| && 0 <= b < |joints| && a != b
      ensures AngleOfBlockToJoint(joints[a], joints[b]) ==
        if SlideEntry(joints, s, a, b) then Ok(BlockAngleValue(joints, s, a, b)) else Err(KeyNotFound)
    {
      assert angleFromBlockToJoint == InitialBlockAngles(joints, s) && numJoints == |joints|;
      assert AngleOfBlockToJoint(joints[a], joints[b]) == AngleIn(joints, |joints|, InitialBlockAngles(joints, s), joints[a], joints[b]);
      InitialAngleAt(joints, s, a, b);
    }

    /** Every key of the three tables is that of a pair of positions. */
    ghost predicate KeysInRange()
      reads this
    {
      (forall k :: k in lengths ==> 0 <= k < numJoints * numJoints) &&
      (forall k :: k in distanceToSlideLine ==> 0 <= k < numJoints * numJoints) &&
      (forall k :: k in angleFromBlockToJoint ==> 0 <= k < numJoints * numJoints)
    }

    lemma InitialisedKeysInRange(s: Surroundings)
      requires Initialised(s)
      ensures KeysInRange()
    {
    }

    /** A joint that is not on the link has no length to any other joint. */
    lemma LengthBetweenOffLink(joint1: Joint, joint2: Joint)
      requires KeysInRange() && numJoints == |joints|
      requires joint1 != joint2 && (joint1 !in joints || joint2 !in joints)
      ensures LengthBetween(joint1, joint2) == Err(KeyNotFound)
    {
      var i := IndexOf(joints, joint1);
      var j := IndexOf(joints, joint2);
      var k := if i > j then Key(numJoints, j, i) else Key(numJoints, i, j);
      assert Min(i, j) == -1 && Max(i, j) < numJoints;
      assert k == numJoints * Min(i, j) + Max(i, j);
      assert k < 0;
    }

    // -------------------------------------------------------------------------------------
    // MaxLength and TotalLength

    /** `TotalLength`: the sum of the absolute values of the lengths. */
    ghost function TotalLength(): (r: real)
      reads this
      ensures r >= 0.0
      ensures forall k :: k in lengths ==> Constants.Abs(lengths[k]) <= r
    {
      forall k | k in lengths
        ensures Constants.Abs(lengths[k]) <= SumAbs(lengths)
      {
        AbsBelowSum(lengths, k);
      }
      SumAbs(lengths)
    }

    /** `MaxLength`: the largest absolute value of a length; `Enumerable.Max` throws on a link
        with no lengths. */
    ghost function MaxLength(): (r: Result<real>)
      reads this
      ensures r.Err? <==> lengths == map[]
      ensures r.Err? ==> r.error == EmptySequence
      ensures r.Ok? ==> 0.0 <= r.value <= TotalLength()
      ensures r.Ok? ==> forall k :: k in lengths ==> Constants.Abs(lengths[k]) <= r.value
      ensures r.Ok? ==> exists k :: k in lengths && Constants.Abs(lengths[k]) == r.value
    {
      if lengths == map[] then Err(EmptySequence)
      else
        MaxAbsWithinSum(lengths);
        Ok(MaxAbs(lengths))
    }

    // -------------------------------------------------------------------------------------
    // SetLength and Copy

    /** `SetLength`: throws for a joint with itself; otherwise writes the length under the key of
        the two positions, the smaller first, and nothing else. */
    method SetLength(joint1: Joint, joint2: Joint, length: real) returns (ok: bool)
      modifies this`lengths
      ensures ok <==> joint1 != joint2
      ensures !ok ==> lengths == old(lengths)
      ensures ok ==> lengths == old(lengths)[CanonicalKey(numJoints, IndexOf(joints, joint1), IndexOf(joints, joint2)) := length]
      // the length now reads back in both orders
      ensures ok ==> LengthBetween(joint1, joint2) == Ok(length) && LengthBetween(joint2, joint1) == Ok(length)
      // the length of every other pair of joints of the link is as it was
      ensures ok && numJoints == |joints| ==>
        forall p, q :: p in joints && q in joints && !(p == joint1 && q == joint2) && !(p == joint2 && q == joint1) ==>
          LengthBetween(p, q) == LengthIn(joints, numJoints, old(lengths), p, q)
    {
      if joint1 == joint2 {
        return false;
      }
      ok := true;
      var i := IndexOf(joints, joint1);
      var j := IndexOf(joints, joint2);
      ghost var before := lengths;
      if i > j {
        lengths := lengths[numJoints * j + i := length];
      } else {
        lengths := lengths[numJoints * i + j := length];
      }
      assert lengths == before[CanonicalKey(numJoints, i, j) := length];
      LengthInReadsBack(joints, numJoints, before, joint1, joint2, length);
      if numJoints == |joints| {
        LengthInKeepsOthers(joints, before, joint1, joint2, length);
      }
    }

    /** `Copy`: a new link, made with the private constructor, holding copies of the three
        tables and of the name, the joint count and the angles; its joint list is empty and it
        is not ground. */
    method Copy() returns (c: Link)
      ensures fresh(c)
      ensures c.lengths == lengths && c.distanceToSlideLine == distanceToSlideLine && c.angleFromBlockToJoint == angleFromBlockToJoint
      ensures c.name == name && c.numJoints == numJoints
      ensures c.angle == angle && c.angleInitial == angleInitial && c.angleLast == angleLast && c.angleNumerical == angleNumerical
      ensures c.joints == [] && !c.isGround
      ensures c.referenceJoint1 == null && c.referenceJoint2 == null
      ensures c.velocity == 0.0 && c.velocityLast == 0.0 && c.acceleration == 0.0
    {
      c := new Link.Blank();
      c.angle := angle;
      c.angleInitial := angleInitial;
      c.angleLast := angleLast;
      c.angleNumerical := angleNumerical;
      c.numJoints := numJoints;
      c.lengths := lengths;
      c.distanceToSlideLine := distanceToSlideLine;
      c.name := name;
      c.angleFromBlockToJoint := angleFromBlockToJoint;
    }
  }

  /** A copy is independent of its original: a length set on the copy is not seen by the
      original, whose state is as it was. */
  method SetLengthOnCopy(original: Link, joint1: Joint, joint2: Joint, length: real) returns (copy: Link, ok: bool)
    ensures fresh(copy)
    ensures ok <==> joint1 != joint2
    ensures ok ==> copy.lengths == original.lengths[CanonicalKey(original.numJoints, -1, -1) := length]
    ensures !ok ==> copy.lengths == original.lengths
    ensures original.lengths == old(original.lengths)
    ensures original.distanceToSlideLine == old(original.distanceToSlideLine)
    ensures original.angleFromBlockToJoint == old(original.angleFromBlockToJoint)
  {
    copy := original.Copy();
    ok := copy.SetLength(joint1, joint2, length);
  }
}
