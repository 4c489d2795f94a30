/**
 * Habit cycles: a comma-separated list of weekday names, validated and
 * normalised to lower case, canonical Monday-first order and no repeats
 * before every write of a habit.
 */
module Cycles {
  import opened GoStrings

  /** The seven accepted day names, in canonical order. */
  const ValidCycles: seq<string> := ["mon", "tue", "wed", "thu", "fri", "sat", "sun"]

  /** Position of each day name in `ValidCycles`. */
  const DayRank: map<string, nat> :=
    map["mon" := 0, "tue" := 1, "wed" := 2, "thu" := 3, "fri" := 4, "sat" := 5, "sun" := 6]

  lemma DayRankIndexesValidCycles()
    ensures |ValidCycles| == 7
    ensures forall k :: 0 <= k < 7 ==> ValidCycles[k] in DayRank && DayRank[ValidCycles[k]] == k
    ensures forall d :: d in DayRank <==> d in ValidCycles
    ensures forall k :: 0 <= k < 7 ==> ',' !in ValidCycles[k] && IsLowerAscii(ValidCycles[k])
  {
  }

  /** `stringSliceContains`: a left-to-right scan for an exact match. */
  function SliceContains(slice: seq<string>, element: string): (r: bool)
    ensures r <==> exists i :: 0 <= i < |slice| && slice[i] == element
  {
    if |slice| == 0 then false
    else if slice[0] == element then true
    else SliceContains(slice[1..], element)
  }

  /** `stringSliceToLower`: each element lowered, in place. */
  function SliceToLower(slice: seq<string>): (r: seq<string>)
    ensures |r| == |slice|
    ensures forall i :: 0 <= i < |slice| ==> r[i] == ToLower(slice[i])
  {
    if |slice| == 0 then []
    else [ToLower(slice[0])] + SliceToLower(slice[1..])
  }

  /** The comma-separated pieces of a cycle. */
  function Pieces(cycle: string): seq<string>
  {
    Split(cycle, ",")
  }

  /** The loop of `isValidCycle`: every piece, lowered, is a day name. */
  function AllPiecesValid(pieces: seq<string>): (r: bool)
    ensures r <==> forall i :: 0 <= i < |pieces| ==> ToLower(pieces[i]) in ValidCycles
  {
    if |pieces| == 0 then true
    else if !SliceContains(ValidCycles, ToLower(pieces[0])) then false
    else AllPiecesValid(pieces[1..])
  }

  /** `isValidCycle`. */
  function IsValidCycle(cycle: string): (r: bool)
    ensures r <==> forall i :: 0 <= i < |Pieces(cycle)| ==> ToLower(Pieces(cycle)[i]) in ValidCycles
  {
    AllPiecesValid(Pieces(cycle)) && |cycle| > 0
  }

  /** The final length test of `isValidCycle` never decides: "" splits to [""]. */
  lemma EmptyCycleRejectedByLoop()
    ensures Pieces("") == [""]
    ensures !AllPiecesValid(Pieces(""))
    ensures !IsValidCycle("")
  {
    assert ToLower("") == "";
    assert "" !in ValidCycles;
  }

  /** Validation lowers each piece: upper-case names are accepted. */
  lemma ValidCycleIgnoresCase(cycle: string)
    requires cycle == "MON"
    ensures IsValidCycle(cycle)
  {
    SplitJoin(["MON"], ',');
    assert Pieces(cycle) == ["MON"];
    assert ToLower("MON") == "mon";
    assert AllPiecesValid(["MON"]);
  }

  /** Validation does not reject repeated days. */
  lemma ValidCycleAllowsRepeats(cycle: string)
    requires cycle == "mon,mon"
    ensures IsValidCycle(cycle)
  {
    PiecesOfJoin(cycle, ["mon", "mon"]);
    assert ToLower("mon") == "mon";
    assert AllPiecesValid(["mon", "mon"]);
  }

  /** Validation does not trim: a space after the comma is rejected. */
  lemma ValidCycleDoesNotTrim(cycle: string)
    requires cycle == "mon, tue"
    ensures !IsValidCycle(cycle)
  {
    PiecesOfJoin(cycle, ["mon", " tue"]);
    var lowered := ToLower(" tue");
    assert |lowered| == 4;
    assert lowered !in ValidCycles;
  }

  /** The pieces of a cycle written as comma-free parts joined with commas. */
  lemma PiecesOfJoin(cycle: string, parts: seq<string>)
    requires |parts| >= 1
    requires forall i :: 0 <= i < |parts| ==> ',' !in parts[i]
    requires cycle == Join(parts, ",")
    ensures Pieces(cycle) == parts
  {
    SplitJoin(parts, ',');
  }

  /** Day names in strictly increasing canonical rank. */
  predicate Canonical(days: seq<string>) {
    && (forall i :: 0 <= i < |days| ==> days[i] in DayRank)
    && (forall i, j :: 0 <= i < j < |days| ==> DayRank[days[i]] < DayRank[days[j]])
  }

  /**
   * The loop of `orderCyclesSlice` from position `k` of `ValidCycles` on:
   * each day name present in `present` is kept, in canonical order.
   */
  function FilterDays(k: nat, present: seq<string>): (r: seq<string>)
    requires k <= 7
    ensures |r| <= 7 - k
    ensures forall i :: 0 <= i < |r| ==> r[i] in DayRank && k <= DayRank[r[i]]
    ensures Canonical(r)
    ensures forall d :: d in r <==> (exists j :: k <= j < 7 && ValidCycles[j] == d) && d in present
    decreases 7 - k
  {
    DayRankIndexesValidCycles();
    if k == 7 then []
    else if SliceContains(present, ValidCycles[k]) then [ValidCycles[k]] + FilterDays(k + 1, present)
    else FilterDays(k + 1, present)
  }

  /** `orderCyclesSlice`. */
  function OrderCyclesSlice(cycle: string): (r: seq<string>)
    ensures |r| <= 7
    ensures Canonical(r)
    ensures forall i, j :: 0 <= i < j < |r| ==> r[i] != r[j]
    ensures forall d :: d in r <==> d in ValidCycles && d in SliceToLower(Pieces(cycle))
  {
    var r := FilterDays(0, SliceToLower(Pieces(cycle)));
    DayRankIndexesValidCycles();
    r
  }

  /**
   * A comma-join of day names in canonical order is empty only for the
   * empty list, and splitting it at commas gives the list back.
   */
  lemma JoinCanonical(days: seq<string>)
    requires Canonical(days)
    ensures Join(days, ",") == "" <==> days == []
    ensures days != [] ==> Pieces(Join(days, ",")) == days
  {
    DayRankIndexesValidCycles();
    if days != [] {
      forall i | 0 <= i < |days| ensures ',' !in days[i] {
        assert days[i] in ValidCycles;
      }
      SplitJoin(days, ',');
      assert [','] == ",";
      assert |days[0]| == 3 by { assert days[0] in ValidCycles; }
      if |days| > 1 {
        assert Join(days, ",") == days[0] + "," + Join(days[1..], ",");
      }
    }
  }

  /**
   * `orderCyclesString`: the ordered days joined with commas; empty exactly
   * when no valid day occurs, and otherwise splitting it at commas gives the
   * ordered days back.
   */
  function OrderCyclesString(cycle: string): (r: string)
    ensures r == "" <==> OrderCyclesSlice(cycle) == []
    ensures r != "" ==> Pieces(r) == OrderCyclesSlice(cycle)
  {
    JoinCanonical(OrderCyclesSlice(cycle));
    Join(OrderCyclesSlice(cycle), ",")
  }

  /** The filter depends only on which day names are present. */
  lemma {:induction false} FilterDaysCongruent(k: nat, p1: seq<string>, p2: seq<string>)
    requires k <= 7
    requires forall d :: d in ValidCycles ==> (d in p1 <==> d in p2)
    ensures FilterDays(k, p1) == FilterDays(k, p2)
    decreases 7 - k
  {
    if k < 7 {
      FilterDaysCongruent(k + 1, p1, p2);
      assert ValidCycles[k] in ValidCycles;
    }
  }

  /** Nothing survives the filter when only the empty piece is present. */
  lemma {:induction false} FilterDaysOfEmptyPiece(k: nat)
    requires k <= 7
    ensures FilterDays(k, [""]) == []
    decreases 7 - k
  {
    if k < 7 {
      FilterDaysOfEmptyPiece(k + 1);
      assert |ValidCycles[k]| == 3;
    }
  }

  /** The normalised slice of a valid cycle is never empty. */
  lemma OrderCyclesSliceOfValidNonEmpty(cycle: string)
    requires IsValidCycle(cycle)
    ensures OrderCyclesSlice(cycle) != []
  {
    var lowered := SliceToLower(Pieces(cycle));
    var d := lowered[0];
    assert d in ValidCycles && d in lowered;
    assert d in OrderCyclesSlice(cycle);
  }

  /** Every piece of the normalised string is a valid day named, in some case, by the cycle. */
  lemma OrderCyclesStringPieces(cycle: string)
    ensures forall d :: d in Pieces(OrderCyclesString(cycle)) && OrderCyclesString(cycle) != "" ==>
      d in ValidCycles && d in SliceToLower(Pieces(cycle))
  {
  }

  /** Normalising twice gives the same slice as normalising once. */
  lemma OrderCyclesSliceIdempotent(cycle: string)
    ensures OrderCyclesSlice(OrderCyclesString(cycle)) == OrderCyclesSlice(cycle)
  {
    var ordered := OrderCyclesSlice(cycle);
    var again := OrderCyclesString(cycle);
    var lowered := SliceToLower(Pieces(cycle));
    DayRankIndexesValidCycles();
    OrderCyclesStringPieces(cycle);
    if ordered == [] {
      assert again == "";
      assert Pieces(again) == [""] by { EmptyCycleRejectedByLoop(); }
      assert SliceToLower(Pieces(again)) == [""];
      FilterDaysOfEmptyPiece(0);
    } else {
      var relowered := SliceToLower(Pieces(again));
      assert relowered == ordered by {
        forall i | 0 <= i < |ordered| ensures relowered[i] == ordered[i] {
          assert ordered[i] in ValidCycles;
        }
      }
      FilterDaysCongruent(0, relowered, lowered);
    }
  }

  /** `orderCyclesString` is idempotent. */
  lemma OrderCyclesStringIdempotent(cycle: string)
    ensures OrderCyclesString(OrderCyclesString(cycle)) == OrderCyclesString(cycle)
  {
    OrderCyclesSliceIdempotent(cycle);
  }

  /** Normalising a valid cycle gives a non-empty, valid cycle. */
  lemma OrderCyclesStringOfValid(cycle: string)
    requires IsValidCycle(cycle)
    ensures OrderCyclesString(cycle) != ""
    ensures IsValidCycle(OrderCyclesString(cycle))
    ensures Pieces(OrderCyclesString(cycle)) == OrderCyclesSlice(cycle)
  {
    OrderCyclesSliceOfValidNonEmpty(cycle);
    OrderCyclesStringPieces(cycle);
    var pieces := Pieces(OrderCyclesString(cycle));
    DayRankIndexesValidCycles();
    forall i | 0 <= i < |pieces| ensures ToLower(pieces[i]) in ValidCycles {
      assert pieces[i] in pieces;
    }
  }

  /** Unrecognised pieces are dropped; case, order and repeats are normalised. */
  lemma OrderCyclesStringDropsUnknown(cycle: string)
    requires cycle == "Sun,xyz,MON,sun"
    ensures OrderCyclesString(cycle) == "mon,sun"
  {
    ExampleSlice(cycle);
    JoinExample(OrderCyclesSlice(cycle));
  }

  lemma JoinExample(parts: seq<string>)
    requires parts == ["mon", "sun"]
    ensures Join(parts, ",") == "mon,sun"
  {
    assert Join(parts[1..], ",") == "sun";
  }

  lemma ExampleSlice(cycle: string)
    requires cycle == "Sun,xyz,MON,sun"
    ensures OrderCyclesSlice(cycle) == ["mon", "sun"]
  {
    var raw := ["Sun", "xyz", "MON", "sun"];
    ExamplePieces(cycle, raw);
    var lowered := ["sun", "xyz", "mon", "sun"];
    LowerExample(raw, lowered);
    var present := ["mon", "sun"];
    ExamplePresence(lowered, present);
    FilterDaysCongruent(0, lowered, present);
    FilterExample(present);
  }

  lemma ExamplePieces(cycle: string, raw: seq<string>)
    requires cycle == "Sun,xyz,MON,sun"
    requires raw == ["Sun", "xyz", "MON", "sun"]
    ensures Pieces(cycle) == raw
  {
    assert Join(raw[3..], ",") == "sun";
    assert Join(raw[2..], ",") == "MON,sun" by { assert raw[2..][1..] == raw[3..]; }
    assert Join(raw[1..], ",") == "xyz,MON,sun" by { assert raw[1..][1..] == raw[2..]; }
    assert Join(raw, ",") == cycle;
    PiecesOfJoin(cycle, raw);
  }

  lemma ExamplePresence(lowered: seq<string>, present: seq<string>)
    requires lowered == ["sun", "xyz", "mon", "sun"]
    requires present == ["mon", "sun"]
    ensures forall d :: d in ValidCycles ==> (d in lowered <==> d in present)
  {
    forall d | d in ValidCycles ensures d in lowered <==> d in present {
      assert d != "xyz";
    }
  }

  lemma LowerExample(raw: seq<string>, lowered: seq<string>)
    requires raw == ["Sun", "xyz", "MON", "sun"]
    requires lowered == ["sun", "xyz", "mon", "sun"]
    ensures SliceToLower(raw) == lowered
  {
    LowerWord("Sun", "sun");
    LowerWord("MON", "mon");
    LowerWord("xyz", "xyz");
    LowerWord("sun", "sun");
    var r := SliceToLower(raw);
    assert |r| == |lowered|;
    assert forall i :: 0 <= i < |r| ==> r[i] == lowered[i];
  }

  /** `ToLower` on a three-rune word, rune by rune. */
  lemma LowerWord(w: string, lower: string)
    requires |w| == 3 && |lower| == 3
    requires LowerRune(w[0]) == lower[0] && LowerRune(w[1]) == lower[1] && LowerRune(w[2]) == lower[2]
    ensures ToLower(w) == lower
  {
    assert forall i :: 0 <= i < 3 ==> ToLower(w)[i] == lower[i];
  }

  lemma FilterExample(present: seq<string>)
    requires present == ["mon", "sun"]
    ensures FilterDays(0, present) == present
  {
    assert SliceContains(present, "sun") && SliceContains(present, "mon");
    assert FilterDays(6, present) == ["sun"];
    assert FilterDays(5, present) == ["sun"];
    assert FilterDays(4, present) == ["sun"];
    assert FilterDays(3, present) == ["sun"];
    assert FilterDays(2, present) == ["sun"];
    assert FilterDays(1, present) == ["sun"];
  }
}
