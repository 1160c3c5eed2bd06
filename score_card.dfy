/** The score card (src/components/ScoreCard.jsx): the colour of the letter
    grade and the value shown for each scored dimension. */
module ScoreCard {
  import opened Wrappers
  import opened Text
  import opened JsonValues
  import FeedbackService

  const NO_GRADE_COLOR := "#94a3b8"
  const A_COLOR := "#10b981"
  const B_COLOR := "#06b6d4"
  const C_COLOR := "#f59e0b"
  const OTHER_GRADE_COLOR := "#ef4444"

  /** Lines 13-19: a missing or empty grade is grey; otherwise the first
      letter decides, and anything but A, B or C is red. */
  function GradeColor(grade: Option<string>): string {
    if grade.None? || grade.value == [] then NO_GRADE_COLOR
    else if StartsWith(grade.value, "A") then A_COLOR
    else if StartsWith(grade.value, "B") then B_COLOR
    else if StartsWith(grade.value, "C") then C_COLOR
    else OTHER_GRADE_COLOR
  }

  /** Every grade gets exactly one colour, fixed by its first character. */
  lemma GradeColorByFirstLetter(grade: Option<string>)
    ensures GradeColor(grade) == NO_GRADE_COLOR <==> grade.None? || grade.value == []
    ensures GradeColor(grade) == A_COLOR <==> grade.Some? && grade.value != [] && grade.value[0] == 'A'
    ensures GradeColor(grade) == B_COLOR <==> grade.Some? && grade.value != [] && grade.value[0] == 'B'
    ensures GradeColor(grade) == C_COLOR <==> grade.Some? && grade.value != [] && grade.value[0] == 'C'
    ensures GradeColor(grade) == OTHER_GRADE_COLOR
            <==> grade.Some? && grade.value != [] && grade.value[0] !in {'A', 'B', 'C'}
  {
    assert NO_GRADE_COLOR[1] == '9' && A_COLOR[1] == '1' && B_COLOR[1] == '0';
    assert C_COLOR[1] == 'f' && OTHER_GRADE_COLOR[1] == 'e';
    if grade.Some? && grade.value != [] {
      assert StartsWith(grade.value, "A") <==> grade.value[0] == 'A';
      assert StartsWith(grade.value, "B") <==> grade.value[0] == 'B';
      assert StartsWith(grade.value, "C") <==> grade.value[0] == 'C';
    }
  }

  /** One row of the dimension table: the score key and its caption (`label`). */
  datatype Dimension = Dimension(key: string, caption: string)

  /** Lines 4-11, in display order. */
  const DIMENSIONS: seq<Dimension> := [
    Dimension("clarity", "Clarity"),
    Dimension("relevance", "Relevance"),
    Dimension("confidence", "Confidence"),
    Dimension("structure", "Structure"),
    Dimension("depth", "Depth"),
    Dimension("delivery", "Delivery")]

  /** Line 108: `scores?.[key] ?? 0`: the score when the object has a
      non-null value under the key, otherwise 0. */
  function DimensionValue(scores: Option<Json>, key: string): (r: Json)
    ensures scores.None? ==> r == Num(0.0)
    ensures scores.Some? && Property(scores.value, key).Some? && Property(scores.value, key).value != Null
            ==> r == Property(scores.value, key).value
    ensures scores.Some? && (Property(scores.value, key).None? || Property(scores.value, key).value == Null)
            ==> r == Num(0.0)
  {
    if scores.None? then Num(0.0)
    else match Property(scores.value, key)
      case Some(v) => if v == Null then Num(0.0) else v
      case None => Num(0.0)
  }

  /** The values of all six dimensions, in display order. */
  function DimensionValues(scores: Option<Json>): (r: seq<Json>)
    ensures |r| == |DIMENSIONS|
    ensures forall k :: 0 <= k < |r| ==> r[k] == DimensionValue(scores, DIMENSIONS[k].key)
  {
    seq(|DIMENSIONS|, k requires 0 <= k < |DIMENSIONS| => DimensionValue(scores, DIMENSIONS[k].key))
  }

  /** Without a scores object every dimension shows 0. */
  lemma NoScoresAllZero()
    ensures forall k :: 0 <= k < |DIMENSIONS| ==> DimensionValues(None)[k] == Num(0.0)
  {
  }

  /** The feedback request asks for every dimension except `depth`, so a
      reply that supplies exactly the requested keys shows 0 for depth. */
  lemma DepthIsNotRequested()
    ensures forall k :: 0 <= k < |DIMENSIONS| ==>
              (DIMENSIONS[k].key in FeedbackService.REQUESTED_SCORE_KEYS <==> DIMENSIONS[k].key != "depth")
  {
    var req := FeedbackService.REQUESTED_SCORE_KEYS;
    assert req == ["clarity", "relevance", "confidence", "structure", "delivery"];
    assert "depth" !in req by {
      forall k | 0 <= k < |req| ensures req[k] != "depth" {
        assert req[k][0] != 'd' || req[k][1] != 'e' || |req[k]| != 5;
      }
    }
  }

  lemma DepthDefaultsToZero(fields: map<string, Json>)
    requires "depth" !in fields
    ensures DimensionValues(Some(Obj(fields)))[4] == Num(0.0)
    ensures DIMENSIONS[4].key == "depth"
  {
  }
}
