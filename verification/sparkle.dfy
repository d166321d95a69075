/** Sparkle build numbers: the floors a short version sets, and the check of an appcast against them. */
module Sparkle {
  import opened Basics
  import opened Decimals

  // What follows the date of a short version: nothing, a text without final digits, or one with them.
  datatype Suffix = NoSuffix | Lettered | Numbered(digits: seq<Digit>)

  datatype Fields = Fields(year: seq<Digit>, month: seq<Digit>, day: seq<Digit>, suffix: Suffix)

  // What the version pattern lets through.
  predicate Matched(v: Fields) {
    |v.year| == 4 && 1 <= |v.month| <= 2 && 1 <= |v.day| <= 2 && (v.suffix.Numbered? ==> v.suffix.digits != [])
  }

  type ShortVersion = v: Fields | Matched(v) witness Fields([1, 0, 0, 0], [1], [1], NoSuffix)

  datatype Floors = Floors(dateKey: nat, legacyFloor: nat, laneFloor: nat, lane: nat)

  function LaneOf(s: Suffix): (lane: nat)
    ensures lane <= 90 && (lane == 90 <==> s.NoSuffix?)
  {
    match s
    case NoSuffix => 90
    case Numbered(ds) => if Value(ds) < 89 then Value(ds) else 89
    case Lettered => 1
  }

  // sparkleBuildFloorsFromShortVersion; every number is read from a text put together from decimal texts.
  function FloorsOf(v: ShortVersion): Option<Floors>
  {
    var year, month, day := Value(v.year), Value(v.month), Value(v.day);
    if month < 1 || month > 12 || day < 1 || day > 31 then None
    else
      var dateKey := Value(Digits(year) + PadTwo(month) + PadTwo(day));
      var lane := LaneOf(v.suffix);
      Some(Floors(dateKey, Value(Digits(dateKey) + [0]), Value(Digits(dateKey) + PadTwo(lane)), lane))
  }

  // The texts read as positional numbers.
  lemma {:induction false} FloorsArithmetic(v: ShortVersion)
    requires FloorsOf(v).Some?
    ensures var f := FloorsOf(v).value;
      && f.dateKey == Value(v.year) * 10_000 + Value(v.month) * 100 + Value(v.day)
      && f.legacyFloor == f.dateKey * 10
      && f.laneFloor == f.dateKey * 100 + f.lane && f.lane == LaneOf(v.suffix)
      && Value(v.year) < 10_000 && 1 <= Value(v.month) <= 12 && 1 <= Value(v.day) <= 31
  {
    var year, month, day := Value(v.year), Value(v.month), Value(v.day);
    ValueOfFour(v.year);
    ValueDigits(year);
    AppendTwo(Digits(year), month);
    AppendTwo(Digits(year) + PadTwo(month), day);
    hide Value;
    hide Digits;
    hide PadTwo;
    hide LaneOf;
    var dateKey := FloorsOf(v).value.dateKey;
    ValueDigits(dateKey);
    AppendOne(Digits(dateKey), 0);
    AppendTwo(Digits(dateKey), LaneOf(v.suffix));
  }

  // Earlier by year, then month, then day, then lane.
  predicate Earlier(a: ShortVersion, b: ShortVersion) {
    || Value(a.year) < Value(b.year)
    || (Value(a.year) == Value(b.year) &&
        (|| Value(a.month) < Value(b.month)
         || (Value(a.month) == Value(b.month) &&
             (|| Value(a.day) < Value(b.day)
              || (Value(a.day) == Value(b.day) && LaneOf(a.suffix) < LaneOf(b.suffix))))))
  }

  // The lane floors of two versions are ordered as their dates and lanes are; the unsuffixed one of a day is last.
  lemma {:induction false} LaneFloorOrder(a: ShortVersion, b: ShortVersion)
    requires FloorsOf(a).Some? && FloorsOf(b).Some?
    ensures FloorsOf(a).value.laneFloor < FloorsOf(b).value.laneFloor <==> Earlier(a, b)
    ensures (a.year, a.month, a.day) == (b.year, b.month, b.day) && b.suffix.NoSuffix? && !a.suffix.NoSuffix? ==>
      FloorsOf(a).value.laneFloor < FloorsOf(b).value.laneFloor
  {
    FloorsArithmetic(a);
    FloorsArithmetic(b);
    hide Value;
    hide FloorsOf;
  }

  // Numbered suffixes of the same day are told apart exactly below 89; one without final digits counts as number 1.
  lemma {:induction false} NumberedLanes(a: seq<Digit>, b: seq<Digit>)
    ensures Value(a) == 1 ==> LaneOf(Lettered) == LaneOf(Numbered(a))
    ensures LaneOf(Numbered(a)) < LaneOf(Numbered(b)) <==> Value(a) < Value(b) && Value(a) < 89
  {
  }

  const LANE_BUILD_MIN: nat := 1_000_000_000

  // Legacy floors stay below the smallest lane build; lane floors reach it exactly from the year 1000 on.
  lemma {:induction false} FloorRanges(v: ShortVersion)
    requires FloorsOf(v).Some?
    ensures FloorsOf(v).value.legacyFloor < LANE_BUILD_MIN
    ensures FloorsOf(v).value.legacyFloor <= FloorsOf(v).value.laneFloor
    ensures FloorsOf(v).value.laneFloor >= LANE_BUILD_MIN <==> Value(v.year) >= 1000
  {
    FloorsArithmetic(v);
    hide Value;
    hide FloorsOf;
  }

  // ---- The appcast ----

  datatype BuildText = Missing | NotNumeric | Numeric(build: nat)

  // `short` is None when there is no short version or it does not match the pattern.
  datatype Item = Item(title: string, short: Option<ShortVersion>, build: BuildText)

  datatype Calver = Calver(title: string, build: nat, floors: Floors)

  datatype Problem =
    | NoItems
    | MissingBuild(title: string)
    | NotNumericBuild(title: string)
    | BelowFloor(title: string, build: nat, lane: bool, floor: nat)

  // The problem an item has by itself.
  function FormProblem(item: Item): seq<Problem> {
    match item.build
    case Missing => [MissingBuild(item.title)]
    case NotNumeric => [NotNumericBuild(item.title)]
    case Numeric(_) => []
  }

  // The item as one with floors to meet, if it is.
  function AsCalver(item: Item): seq<Calver>
  {
    if !item.build.Numeric? || item.short.None? then []
    else
      var floors := FloorsOf(item.short.value);
      if floors.None? then [] else [Calver(item.title, item.build.build, floors.value)]
  }

  function FormProblems(items: seq<Item>): seq<Problem> {
    if items == [] then [] else FormProblems(items[..|items| - 1]) + FormProblem(items[|items| - 1])
  }

  function Calvers(items: seq<Item>): seq<Calver>
  {
    if items == [] then [] else Calvers(items[..|items| - 1]) + AsCalver(items[|items| - 1])
  }

  const LANE_ADOPTION: nat := 20260227

  // The first date key that must use lanes: the fixed one, or an earlier one at which a lane build was seen.
  function Adoption(calvers: seq<Calver>): (k: nat)
    ensures k <= LANE_ADOPTION
    ensures forall c | c in calvers && c.build >= LANE_BUILD_MIN :: k <= c.floors.dateKey
    ensures k == LANE_ADOPTION || exists c :: c in calvers && c.build >= LANE_BUILD_MIN && k == c.floors.dateKey
  {
    if calvers == [] then LANE_ADOPTION
    else
      var last := calvers[|calvers| - 1];
      var k := Adoption(calvers[..|calvers| - 1]);
      if last.build >= LANE_BUILD_MIN && last.floors.dateKey < k then last.floors.dateKey else k
  }

  predicate ExpectsLane(c: Calver, adoption: nat) {
    c.build >= LANE_BUILD_MIN || c.floors.dateKey >= adoption
  }

  function FloorProblem(c: Calver, adoption: nat): seq<Problem> {
    var lane := ExpectsLane(c, adoption);
    var floor := if lane then c.floors.laneFloor else c.floors.legacyFloor;
    if c.build < floor then [BelowFloor(c.title, c.build, lane, floor)] else []
  }

  function FloorProblems(calvers: seq<Calver>, adoption: nat): seq<Problem> {
    if calvers == [] then []
    else FloorProblems(calvers[..|calvers| - 1], adoption) + FloorProblem(calvers[|calvers| - 1], adoption)
  }

  lemma {:induction false} ItemStep(items: seq<Item>, i: nat)
    requires i < |items|
    ensures FormProblems(items[..i + 1]) == FormProblems(items[..i]) + FormProblem(items[i])
    ensures Calvers(items[..i + 1]) == Calvers(items[..i]) + AsCalver(items[i])
  {
    assert items[..i + 1][..i] == items[..i];
  }

  lemma {:induction false} FloorStep(calvers: seq<Calver>, j: nat, adoption: nat)
    requires j < |calvers|
    ensures FloorProblems(calvers[..j + 1], adoption) ==
      FloorProblems(calvers[..j], adoption) + FloorProblem(calvers[j], adoption)
  {
    assert calvers[..j + 1][..j] == calvers[..j];
  }

  // The first loop of collectAppcastSparkleVersionErrors.
  method CheckItems(items: seq<Item>) returns (errors: seq<Problem>, calverItems: seq<Calver>)
    ensures errors == FormProblems(items) && calverItems == Calvers(items)
  {
    errors := [];
    calverItems := [];
    var i := 0;
    while i < |items|
      invariant 0 <= i <= |items|
      invariant errors == FormProblems(items[..i]) && calverItems == Calvers(items[..i])
    {
      ItemStep(items, i);
      var item := items[i];
      match item.build {
        case Missing => errors := errors + [MissingBuild(item.title)];
        case NotNumeric => errors := errors + [NotNumericBuild(item.title)];
        case Numeric(build) =>
          if item.short.Some? {
            var floors := FloorsOf(item.short.value);
            if floors.Some? {
              calverItems := calverItems + [Calver(item.title, build, floors.value)];
            }
          }
      }
      i := i + 1;
    }
    assert items[..i] == items;
  }

  // Its second loop.
  method CheckFloors(calverItems: seq<Calver>, adoption: nat) returns (errors: seq<Problem>)
    ensures errors == FloorProblems(calverItems, adoption)
  {
    errors := [];
    var j := 0;
    while j < |calverItems|
      invariant 0 <= j <= |calverItems|
      invariant errors == FloorProblems(calverItems[..j], adoption)
    {
      FloorStep(calverItems, j, adoption);
      var item := calverItems[j];
      var expectLaneFloor := item.build >= LANE_BUILD_MIN || item.floors.dateKey >= adoption;
      var floor := if expectLaneFloor then item.floors.laneFloor else item.floors.legacyFloor;
      if item.build < floor {
        errors := errors + [BelowFloor(item.title, item.build, expectLaneFloor, floor)];
      }
      j := j + 1;
    }
    assert calverItems[..j] == calverItems;
  }

  // collectAppcastSparkleVersionErrors, on the items of an appcast.
  method CollectErrors(items: seq<Item>) returns (errors: seq<Problem>)
    ensures errors == (if items == [] then [NoItems] else FormProblems(items)) +
                      FloorProblems(Calvers(items), Adoption(Calvers(items)))
  {
    hide FormProblem;
    hide FloorProblem;
    hide FloorProblems;
    hide Calvers;
    hide Adoption;
    errors := if |items| == 0 then [NoItems] else [];
    var form, calverItems := CheckItems(items);
    errors := errors + form;
    var below := CheckFloors(calverItems, Adoption(calverItems));
    errors := errors + below;
  }

  // ---- What the check means ----

  ghost predicate FromVersion(c: Calver) {
    exists v: ShortVersion :: FloorsOf(v) == Some(c.floors)
  }

  lemma {:induction false} CalversFromVersions(items: seq<Item>)
    ensures forall c | c in Calvers(items) :: FromVersion(c)
  {
    hide AsCalver;
    hide FromVersion;
    if items != [] {
      CalversFromVersions(items[..|items| - 1]);
      AsCalverFromVersion(items[|items| - 1]);
    }
  }

  lemma {:induction false} AsCalverFromVersion(item: Item)
    ensures forall c | c in AsCalver(item) :: FromVersion(c)
  {
  }

  // An item meets its floor exactly when it reaches the lane floor, or is an old build from before the adoption
  // that reaches the legacy floor.
  lemma {:induction false} MeetsFloorExactly(c: Calver, adoption: nat)
    requires FromVersion(c)
    ensures FloorProblem(c, adoption) == [] <==>
      || c.build >= c.floors.laneFloor
      || (c.build < LANE_BUILD_MIN && c.floors.dateKey < adoption && c.build >= c.floors.legacyFloor)
  {
    var v: ShortVersion :| FloorsOf(v) == Some(c.floors);
    FloorRanges(v);
  }

  lemma {:induction false} NoFloorProblems(calvers: seq<Calver>, adoption: nat)
    ensures FloorProblems(calvers, adoption) == [] <==> forall c | c in calvers :: FloorProblem(c, adoption) == []
  {
    if calvers != [] {
      var n := |calvers| - 1;
      NoFloorProblems(calvers[..n], adoption);
      assert calvers == calvers[..n] + [calvers[n]];
    }
  }

  lemma {:induction false} NoFormProblem(item: Item)
    ensures FormProblem(item) == [] <==> item.build.Numeric?
  {
  }

  lemma {:induction false} NoFormProblems(items: seq<Item>)
    ensures FormProblems(items) == [] <==> forall item | item in items :: item.build.Numeric?
  {
    if items != [] {
      var n := |items| - 1;
      hide FormProblem;
      NoFormProblems(items[..n]);
      assert items == items[..n] + [items[n]];
      NoFormProblem(items[n]);
    }
  }

  // Builds that are all the canonical ones are never below a floor, whatever the adoption date.
  lemma {:induction false} CanonicalBuildsPass(items: seq<Item>, adoption: nat)
    requires forall c | c in Calvers(items) :: c.build == c.floors.laneFloor
    ensures FloorProblems(Calvers(items), adoption) == []
  {
    CalversFromVersions(items);
    forall c | c in Calvers(items) ensures FloorProblem(c, adoption) == [] {
      MeetsFloorExactly(c, adoption);
    }
    NoFloorProblems(Calvers(items), adoption);
  }

  // An appcast is free of errors exactly when it has items, their builds are numbers and each meets its floor.
  lemma {:induction false} CleanExactly(items: seq<Item>)
    ensures (if items == [] then [NoItems] else FormProblems(items)) + FloorProblems(Calvers(items),
      Adoption(Calvers(items))) == [] <==>
      && items != []
      && (forall item | item in items :: item.build.Numeric?)
      && forall c | c in Calvers(items) ::
           || c.build >= c.floors.laneFloor
           || (c.build < LANE_BUILD_MIN && c.floors.dateKey < Adoption(Calvers(items)) &&
               c.build >= c.floors.legacyFloor)
  {
    NoFormProblems(items);
    NoFloorProblems(Calvers(items), Adoption(Calvers(items)));
    CalversFromVersions(items);
    forall c | c in Calvers(items) ensures FloorProblem(c, Adoption(Calvers(items))) == [] <==>
      || c.build >= c.floors.laneFloor
      || (c.build < LANE_BUILD_MIN && c.floors.dateKey < Adoption(Calvers(items)) && c.build >= c.floors.legacyFloor)
    {
      MeetsFloorExactly(c, Adoption(Calvers(items)));
    }
  }

  // More items can only bring the adoption forward, and no item that was below its floor then meets it.
  lemma {:induction false} MoreItemsMoreProblems(calvers: seq<Calver>, more: seq<Calver>, c: Calver)
    requires c in calvers && FromVersion(c)
    ensures Adoption(calvers + more) <= Adoption(calvers)
    ensures FloorProblem(c, Adoption(calvers + more)) == [] ==> FloorProblem(c, Adoption(calvers)) == []
  {
    MeetsFloorExactly(c, Adoption(calvers + more));
    MeetsFloorExactly(c, Adoption(calvers));
  }

  // ---- The errors one by one ----

  // A release without a suffix has lane 90, one whose suffix ends in a number that number or at most 89, and any other
  // lane 1; a version has floors exactly when its month and day are in range.
  lemma {:induction false} LaneExactly(v: ShortVersion)
    ensures FloorsOf(v).Some? <==> 1 <= Value(v.month) <= 12 && 1 <= Value(v.day) <= 31
    ensures FloorsOf(v).Some? ==>
              var lane := FloorsOf(v).value.lane;
              && (v.suffix.NoSuffix? ==> lane == 90) && (v.suffix.Lettered? ==> lane == 1)
              && (v.suffix.Numbered? ==>
                    lane <= 89 && (lane == Value(v.suffix.digits) || lane == 89 < Value(v.suffix.digits)))
  {
    hide Value;
    hide Digits;
    hide PadTwo;
  }

  // What an item adds: its own error of form, or else its floors if its version has some.
  lemma {:induction false} ItemAdds(item: Item)
    ensures FormProblems([item]) == match item.build
      case Missing => [MissingBuild(item.title)]
      case NotNumeric => [NotNumericBuild(item.title)]
      case Numeric(_) => []
    ensures Calvers([item]) ==
            if item.build.Numeric? && item.short.Some? && FloorsOf(item.short.value).Some?
            then [Calver(item.title, item.build.build, FloorsOf(item.short.value).value)] else []
  {
    hide FloorsOf;
    assert [item][..0] == [];
  }

  lemma {:induction false} FormInOrder(a: seq<Item>, b: seq<Item>)
    ensures FormProblems(a + b) == FormProblems(a) + FormProblems(b)
    decreases |b|
  {
    hide FormProblem;
    if b == [] {
      assert a + b == a;
    } else {
      var n := |b| - 1;
      assert (a + b)[..|a| + n] == a + b[..n];
      FormInOrder(a, b[..n]);
    }
  }

  lemma {:induction false} CalversInOrder(a: seq<Item>, b: seq<Item>)
    ensures Calvers(a + b) == Calvers(a) + Calvers(b)
    decreases |b|
  {
    hide AsCalver;
    if b == [] {
      assert a + b == a;
    } else {
      var n := |b| - 1;
      assert (a + b)[..|a| + n] == a + b[..n];
      CalversInOrder(a, b[..n]);
    }
  }

  // The items add in their order.
  lemma {:induction false} ItemsInOrder(a: seq<Item>, b: seq<Item>)
    ensures FormProblems(a + b) == FormProblems(a) + FormProblems(b) && Calvers(a + b) == Calvers(a) + Calvers(b)
  {
    FormInOrder(a, b);
    CalversInOrder(a, b);
  }

  // The lane floor counts for a build of at least 1,000,000,000 and from the adoption on, and the legacy floor for all
  // others; an item below its floor adds one error.
  lemma {:induction false} FloorAdds(c: Calver, adoption: nat)
    ensures FloorProblems([c], adoption) ==
            if c.build >= 1_000_000_000 || c.floors.dateKey >= adoption then
              (if c.build < c.floors.laneFloor then [BelowFloor(c.title, c.build, true, c.floors.laneFloor)] else [])
            else
              (if c.build < c.floors.legacyFloor then [BelowFloor(c.title, c.build, false, c.floors.legacyFloor)]
               else [])
  {
    assert [c][..0] == [];
  }

  lemma {:induction false} FloorsInOrder(a: seq<Calver>, b: seq<Calver>, adoption: nat)
    ensures FloorProblems(a + b, adoption) == FloorProblems(a, adoption) + FloorProblems(b, adoption)
    decreases |b|
  {
    hide FloorProblem;
    if b == [] {
      assert a + b == a;
    } else {
      var n := |b| - 1;
      assert (a + b)[..|a| + n] == a + b[..n];
      FloorsInOrder(a, b[..n], adoption);
    }
  }

  // The adoption is the earliest of 27 February 2026 and the dates of the items with a build of at least
  // 1,000,000,000.
  lemma {:induction false} AdoptionExactly(calvers: seq<Calver>, k: nat)
    ensures k < Adoption(calvers) <==>
      k < 20260227 && forall c | c in calvers && c.build >= 1_000_000_000 :: k < c.floors.dateKey
  {
  }
}
