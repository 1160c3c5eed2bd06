/** The answered-questions list (src/components/SessionHistory.jsx): which
    entry is expanded, how entries are numbered, how long texts are cut and
    which colour a score gets. */
module SessionHistory {
  import opened Wrappers
  import opened JsonValues

  const SNIPPET_LENGTH: nat := 60
  const STRENGTH_LENGTH: nat := 40
  const SHOWN_STRENGTHS: nat := 2
  const ELLIPSIS: char := '…'

  const MUTED_COLOR := "var(--clr-text-muted)"
  const SUCCESS_COLOR := "var(--clr-success)"
  const WARNING_COLOR := "var(--clr-warning)"
  const ORANGE_COLOR := "#f97316"
  const DANGER_COLOR := "var(--clr-danger)"

  // ----- Expanding one entry ----------------------------------------------

  /** Line 7: clicking the expanded entry collapses it; clicking any other
      entry expands that one instead. */
  function ToggleTarget(prev: Option<int>, id: int): (r: Option<int>)
    ensures r == None <==> prev == Some(id)
    ensures r != None ==> r == Some(id)
  {
    if prev == Some(id) then None else Some(id)
  }

  /** Clicking the same entry twice undoes the first click when it was
      collapsed or open before; from another open entry it ends on this one. */
  lemma ToggleTwice(prev: Option<int>, id: int)
    ensures prev == None || prev == Some(id) ==> ToggleTarget(ToggleTarget(prev, id), id) == prev
    ensures prev != None && prev != Some(id) ==> ToggleTarget(ToggleTarget(prev, id), id) == None
  {
  }

  /** The `expanded` state of the component. */
  class HistoryPanel {
    var expanded: Option<int>

    /** Line 5. */
    constructor ()
      ensures expanded == None
    {
      expanded := None;
    }

    /** Line 7. */
    method Toggle(id: int)
      modifies this
      ensures expanded == ToggleTarget(old(expanded), id)
      ensures forall other :: other != id ==> expanded != Some(other)
    {
      if expanded == Some(id) {
        expanded := None;
      } else {
        expanded := Some(id);
      }
    }
  }

  // ----- Numbering --------------------------------------------------------

  /** Line 25: the numbers shown for a history of `n` entries, newest first. */
  function EntryNumbers(n: nat): (r: seq<nat>)
    ensures |r| == n
    ensures forall idx :: 0 <= idx < n ==> r[idx] == n - idx
  {
    seq(n, idx requires 0 <= idx < n => n - idx)
  }

  /** The numbers run from `n` down to 1, and filing a new answer at the
      front gives it the next number without renumbering the older ones. */
  lemma EntryNumbersCountDown(n: nat)
    ensures n > 0 ==> EntryNumbers(n)[0] == n && EntryNumbers(n)[n - 1] == 1
    ensures forall i, j :: 0 <= i < j < n ==> EntryNumbers(n)[i] > EntryNumbers(n)[j]
    ensures EntryNumbers(n + 1) == [n + 1] + EntryNumbers(n)
  {
    assert EntryNumbers(n + 1)[1..] == EntryNumbers(n);
  }

  // ----- Cutting long texts -----------------------------------------------

  /** `s.length > limit ? s.slice(0, limit) + '…' : s`. */
  function Clip(s: string, limit: nat): (r: string)
    ensures |s| <= limit ==> r == s
    ensures |s| > limit ==> |r| == limit + 1 && r[..limit] == s[..limit] && r[limit] == ELLIPSIS
  {
    if |s| > limit then s[..limit] + [ELLIPSIS] else s
  }

  /** A cut text is cut again to itself. */
  lemma ClipIdempotent(s: string, limit: nat)
    ensures Clip(Clip(s, limit), limit) == Clip(s, limit)
  {
    if |s| > limit {
      var r := Clip(s, limit);
      assert r[..limit] + [ELLIPSIS] == r;
    }
  }

  /** Lines 27-29: the question as the collapsed entry shows it. */
  function Snippet(question: string): (r: string)
    ensures |r| <= SNIPPET_LENGTH + 1
    ensures |question| <= SNIPPET_LENGTH ==> r == question
    ensures |question| > SNIPPET_LENGTH ==> r == question[..SNIPPET_LENGTH] + [ELLIPSIS]
  {
    Clip(question, SNIPPET_LENGTH)
  }

  /** Lines 51-54: the first two strengths, each cut at 40 characters. */
  function ShownStrengths(strengths: seq<string>): (r: seq<string>)
    ensures |r| == if |strengths| < SHOWN_STRENGTHS then |strengths| else SHOWN_STRENGTHS
    ensures forall i :: 0 <= i < |r| ==> r[i] == Clip(strengths[i], STRENGTH_LENGTH)
    ensures forall i :: 0 <= i < |r| ==> |r[i]| <= STRENGTH_LENGTH + 1
  {
    var first := if |strengths| < SHOWN_STRENGTHS then strengths else strengths[..SHOWN_STRENGTHS];
    seq(|first|, i requires 0 <= i < |first| => Clip(first[i], STRENGTH_LENGTH))
  }

  // ----- The score --------------------------------------------------------

  /** Line 37: `feedback?.overall ?? '?'`: the score, unless it is missing or
      null. */
  function ShownScore(feedback: Option<Json>): (r: Option<Json>)
    ensures r.None? <==> feedback.None? || Property(feedback.value, "overall") in {None, Some(Null)}
    ensures r.Some? ==> Property(feedback.value, "overall") == r
  {
    if feedback.None? then None
    else match Property(feedback.value, "overall")
      case None => None
      case Some(v) => if v == Null then None else Some(v)
  }

  /** Lines 67-73, for a numeric or missing score (`None`); a score of 0 is
      falsy and gets the muted colour too. */
  function ScoreColor(score: Option<real>): string {
    if score.None? || score.value == 0.0 then MUTED_COLOR
    else if score.value >= 8.0 then SUCCESS_COLOR
    else if score.value >= 6.0 then WARNING_COLOR
    else if score.value >= 4.0 then ORANGE_COLOR
    else DANGER_COLOR
  }

  /** Each score falls in exactly one band, and the bands are ordered. */
  lemma ScoreColorBands(score: Option<real>)
    ensures ScoreColor(score) == MUTED_COLOR <==> score.None? || score.value == 0.0
    ensures ScoreColor(score) == SUCCESS_COLOR <==> score.Some? && score.value >= 8.0
    ensures ScoreColor(score) == WARNING_COLOR <==> score.Some? && 6.0 <= score.value < 8.0
    ensures ScoreColor(score) == ORANGE_COLOR <==> score.Some? && 4.0 <= score.value < 6.0
    ensures ScoreColor(score) == DANGER_COLOR <==> score.Some? && score.value < 4.0 && score.value != 0.0
  {
    ColorsDistinct();
  }

  lemma ColorsDistinct()
    ensures MUTED_COLOR != SUCCESS_COLOR && MUTED_COLOR != WARNING_COLOR && MUTED_COLOR != ORANGE_COLOR
    ensures MUTED_COLOR != DANGER_COLOR && SUCCESS_COLOR != WARNING_COLOR && SUCCESS_COLOR != ORANGE_COLOR
    ensures SUCCESS_COLOR != DANGER_COLOR && WARNING_COLOR != ORANGE_COLOR && WARNING_COLOR != DANGER_COLOR
    ensures ORANGE_COLOR != DANGER_COLOR
  {
    assert |MUTED_COLOR| != |SUCCESS_COLOR| && |MUTED_COLOR| != |WARNING_COLOR| && |MUTED_COLOR| != |ORANGE_COLOR|;
    assert |MUTED_COLOR| != |DANGER_COLOR| && |SUCCESS_COLOR| != |ORANGE_COLOR| && |SUCCESS_COLOR| != |DANGER_COLOR|;
    assert |WARNING_COLOR| != |ORANGE_COLOR| && |WARNING_COLOR| != |DANGER_COLOR| && |ORANGE_COLOR| != |DANGER_COLOR|;
    assert SUCCESS_COLOR[12] != WARNING_COLOR[12];
  }

  /** A higher score never gets a worse band. */
  lemma ScoreColorMonotone(a: real, b: real)
    requires 0.0 < a <= b
    ensures BandRank(ScoreColor(Some(a))) <= BandRank(ScoreColor(Some(b)))
  {
    ColorsDistinct();
  }

  /** The bands from worst (0) to best (3); the muted colour has no rank. */
  function BandRank(color: string): int {
    if color == SUCCESS_COLOR then 3
    else if color == WARNING_COLOR then 2
    else if color == ORANGE_COLOR then 1
    else 0
  }
}
