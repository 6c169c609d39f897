/**
 * The per-session state of `main` in webapp.py and the submission it guards:
 * the answer store (`st.session_state.answers`), the email field, and the
 * loop that appends one sheet row per pair and then resets the store.
 */
module Survey {
  import opened Optional
  import opened Gate
  import opened Catalog

  /** One sheet row: `[email, audio1_url, audio2_url, answer]`. */
  datatype Row = Row(email: string, audio1: string, audio2: string, answer: Slot)

  /**
   * The rows of one submission, `[email, audio1_url, audio2_url, answers[i]]`
   * for each pair `i`: one per pair, in pair order, each carrying its own
   * pair's links and answer.
   */
  function Rows(email: string, pairs: seq<Pair>, answers: seq<Slot>): (rows: seq<Row>)
    requires |answers| == |pairs|
    ensures |rows| == |pairs|
    ensures forall i :: 0 <= i < |pairs| ==>
      rows[i] == Row(email, pairs[i].0, pairs[i].1, answers[i])
  {
    if pairs == [] then []
    else [Row(email, pairs[0].0, pairs[0].1, answers[0])] + Rows(email, pairs[1..], answers[1..])
  }

  /** Rows built from a store that passed the gate record only "Yes" or "No". */
  lemma GatedRowsHoldChoices(email: string, pairs: seq<Pair>, answers: seq<Slot>)
    requires |answers| == |pairs| && AllAnswered(answers)
    ensures forall row :: row in Rows(email, pairs, answers) ==> IsChoice(row.answer)
  {
  }

  /**
   * `[None] * n`: a store of `n` slots in which nothing is answered, so no
   * radio is preselected and, unless there are no pairs, the gate is closed.
   */
  function Unanswered(n: nat): (slots: seq<Slot>)
    ensures |slots| == n
    ensures forall i :: 0 <= i < n ==> slots[i] == None && RadioIndex(slots[i]) == None
    ensures n > 0 ==> !AllAnswered(slots)
  {
    var slots := seq(n, _ => None);
    assert n > 0 ==> !IsChoice(slots[0]);
    slots
  }

  /**
   * The spreadsheet as seen by the survey: an append-only list of rows.
   * `failAt` names the `append_row` call (counted from 0) that raises, if one does.
   */
  class Sheet {
    var rows: seq<Row>
    var calls: nat
    const failAt: Option<nat>

    constructor (rows: seq<Row>, failAt: Option<nat>)
      ensures this.rows == rows && calls == 0 && this.failAt == failAt
    {
      this.rows := rows;
      this.calls := 0;
      this.failAt := failAt;
    }

    /** One of the `count` calls numbered from `first` on raises. */
    predicate FailsWithin(first: nat, count: nat) {
      failAt.Some? && first <= failAt.value < first + count
    }

    /** `append_row`: adds `row` at the end, unless this call is the one that raises. */
    method AppendRow(row: Row) returns (ok: bool)
      modifies this
      ensures calls == old(calls) + 1
      ensures ok <==> failAt != Some(old(calls))
      ensures rows == if ok then old(rows) + [row] else old(rows)
    {
      ok := failAt != Some(calls);
      if ok {
        rows := rows + [row];
      }
      calls := calls + 1;
    }
  }

  /** What one run of the submit step ends with. */
  datatype Outcome =
    | GateClosed             // not all answered or no valid email: the info message
    | NotPressed             // the submit button is shown but was not clicked
    | Recorded               // every row appended and the store reset
    | AppendFailed(pair: nat)  // the `append_row` for this pair raised

  /** One participant's session state. */
  class Session {
    /** `audio_pairs`, fixed for the whole session. */
    const pairs: seq<Pair>
    /** `st.session_state.answers`: one slot per pair. */
    var answers: seq<Slot>
    /** The email text field's current value. */
    var email: string

    /** The store keeps one slot per pair. */
    ghost predicate Valid()
      reads this
    {
      |answers| == |pairs|
    }

    /**
     * First run of a session: one unanswered slot per pair and an empty email
     * field. The survey builds it over `audio_pairs` (see `StartSurvey`).
     */
    constructor (pairs: seq<Pair>)
      ensures Valid() && this.pairs == pairs && email == ""
      ensures forall i :: 0 <= i < |answers| ==> answers[i] == None
    {
      this.pairs := pairs;
      answers := Unanswered(|pairs|);
      email := "";
    }

    /** The participant edits the email field. */
    method SetEmail(value: string)
      requires Valid()
      modifies this
      ensures Valid() && email == value && answers == old(answers)
    {
      email := value;
    }

    /** `st.session_state.answers[i] = answer`: only slot `i` changes. */
    method SetAnswer(i: nat, answer: Slot)
      requires Valid() && i < |pairs|
      modifies this
      ensures Valid() && email == old(email)
      ensures answers == old(answers)[i := answer]
    {
      answers := answers[i := answer];
    }

    /** The rendering loop: pair by pair, the radio's value is written to its slot. */
    method RecordRadios(values: seq<Slot>)
      requires Valid() && |values| == |pairs|
      modifies this
      ensures Valid() && email == old(email)
      ensures answers == values
    {
      var i := 0;
      while i < |pairs|
        invariant 0 <= i <= |pairs|
        invariant Valid() && email == old(email)
        invariant answers[..i] == values[..i]
      {
        SetAnswer(i, values[i]);
        i := i + 1;
      }
    }

    /** `all_answered and email_entered`: whether the submit button is offered. */
    function CanSubmit(): (ok: bool)
      reads this
      ensures ok <==> (forall i :: 0 <= i < |answers| ==> IsChoice(answers[i]))
                      && '@' in email && '.' in email
    {
      AllAnswered(answers) && EmailEntered(email)
    }

    /**
     * The `append_row` loop: one row per pair, in pair order. It returns the
     * pair whose append raised, if one did; the rows before it stay appended.
     */
    method AppendRows(sheet: Sheet) returns (failed: Option<nat>)
      requires Valid()
      modifies sheet
      ensures failed.None? ==>
        && sheet.rows == old(sheet.rows) + Rows(email, pairs, answers)
        && sheet.calls == old(sheet.calls) + |pairs|
        && !sheet.FailsWithin(old(sheet.calls), |pairs|)
      ensures failed.Some? ==>
        && failed.value < |pairs|
        && sheet.failAt == Some(old(sheet.calls) + failed.value)
        && sheet.rows == old(sheet.rows) + Rows(email, pairs, answers)[..failed.value]
        && sheet.calls == old(sheet.calls) + failed.value + 1
    {
      ghost var batch := Rows(email, pairs, answers);
      var i := 0;
      while i < |pairs|
        invariant 0 <= i <= |pairs|
        invariant sheet.calls == old(sheet.calls) + i
        invariant sheet.rows == old(sheet.rows) + batch[..i]
        invariant !sheet.FailsWithin(old(sheet.calls), i)
      {
        var ok := sheet.AppendRow(Row(email, pairs[i].0, pairs[i].1, answers[i]));
        if !ok {
          return Some(i);
        }
        assert batch[..i + 1] == batch[..i] + [batch[i]];
        i := i + 1;
      }
      assert batch[..i] == batch;
      return None;
    }

    /**
     * The submit step: when the gate is open and the button is pressed, append
     * one row per pair in order, then reset the store. An append that raises
     * ends the step there: the rows before it stay and the store keeps its answers.
     */
    method Submit(pressed: bool, sheet: Sheet) returns (outcome: Outcome)
      requires Valid()
      modifies this, sheet
      ensures Valid() && email == old(email)
      ensures !old(CanSubmit()) ==> outcome == GateClosed
      ensures old(CanSubmit()) && !pressed ==> outcome == NotPressed
      ensures old(CanSubmit()) && pressed ==> outcome.Recorded? || outcome.AppendFailed?
      ensures outcome.GateClosed? || outcome.NotPressed? ==>
        answers == old(answers) && sheet.rows == old(sheet.rows) && sheet.calls == old(sheet.calls)
      ensures outcome.Recorded? ==>
        && sheet.rows == old(sheet.rows) + Rows(email, pairs, old(answers))
        && sheet.calls == old(sheet.calls) + |pairs|
        && !sheet.FailsWithin(old(sheet.calls), |pairs|)
        && answers == Unanswered(|pairs|)
      ensures outcome.AppendFailed? ==>
        && outcome.pair < |pairs|
        && sheet.failAt == Some(old(sheet.calls) + outcome.pair)
        && sheet.rows == old(sheet.rows) + Rows(email, pairs, old(answers))[..outcome.pair]
        && sheet.calls == old(sheet.calls) + outcome.pair + 1
        && answers == old(answers)
    {
      if !CanSubmit() {
        return GateClosed;
      }
      if !pressed {
        return NotPressed;
      }
      outcome := Commit(sheet);
    }

    /**
     * The body of the `if st.button("Submit")` branch: the `append_row` loop,
     * then `[None] * len(audio_pairs)` once every row is in.
     */
    method Commit(sheet: Sheet) returns (outcome: Outcome)
      requires Valid()
      modifies this, sheet
      ensures Valid() && email == old(email)
      ensures outcome.Recorded? || outcome.AppendFailed?
      ensures outcome.Recorded? ==>
        && sheet.rows == old(sheet.rows) + Rows(email, pairs, old(answers))
        && sheet.calls == old(sheet.calls) + |pairs|
        && !sheet.FailsWithin(old(sheet.calls), |pairs|)
        && answers == Unanswered(|pairs|)
      ensures outcome.AppendFailed? ==>
        && outcome.pair < |pairs|
        && sheet.failAt == Some(old(sheet.calls) + outcome.pair)
        && sheet.rows == old(sheet.rows) + Rows(email, pairs, old(answers))[..outcome.pair]
        && sheet.calls == old(sheet.calls) + outcome.pair + 1
        && answers == old(answers)
    {
      var failed := AppendRows(sheet);
      if failed.Some? {
        return AppendFailed(failed.value);
      }
      answers := Unanswered(|pairs|);
      return Recorded;
    }
  }

  /**
   * A two-pair session driven through the contracts alone: while a pair is
   * unanswered the gate stays closed and pressing submit appends nothing.
   */
  method TwoPairSessionGateClosed(p0: Pair, p1: Pair)
  {
    var session := new Session([p0, p1]);
    var sheet := new Sheet([], None);
    var email := "a@b.co";
    assert email[1] == '@' && email[3] == '.';
    session.SetEmail(email);
    session.SetAnswer(0, Some("Yes"));
    assert !session.CanSubmit() by {
      assert !IsChoice(session.answers[1]);
    }
    var outcome := session.Submit(true, sheet);
    assert outcome == GateClosed && sheet.rows == [];
  }

  /**
   * Once both pairs are answered and the email is valid, a submission that
   * goes through appends both rows, in pair order, and leaves every slot
   * unanswered.
   */
  method TwoPairSessionRecorded(p0: Pair, p1: Pair, email: string)
    requires '@' in email && '.' in email
  {
    var session := new Session([p0, p1]);
    var sheet := new Sheet([], None);
    session.SetEmail(email);
    var answers := [Some("Yes"), Some("No")];
    session.RecordRadios(answers);
    assert session.CanSubmit() by {
      assert IsChoice(answers[0]) && IsChoice(answers[1]);
    }
    var outcome := session.Submit(true, sheet);
    assert outcome == Recorded;
    assert sheet.rows[0] == Row(email, p0.0, p0.1, Some("Yes"));
    assert sheet.rows[1] == Row(email, p1.0, p1.1, Some("No"));
    assert session.answers[0] == None && session.answers[1] == None;
  }

  /** `main`'s first run: the store gets `len(audio_pairs)` slots, all `None`. */
  method StartSurvey() returns (session: Session)
    ensures fresh(session) && session.Valid()
    ensures session.pairs == AudioPairs && |session.answers| == |AudioPairs| == 1
    ensures session.answers == [None] && !session.CanSubmit()
  {
    session := new Session(AudioPairs);
  }
}
