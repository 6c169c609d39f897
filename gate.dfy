/**
 * The submission gate of webapp.py: the radio's preselected index derived
 * from an answer slot, `all_answered` over the answer slots and
 * `email_entered` over the email field, with Python's `str.strip` spelled out.
 */
module Gate {
  import opened Optional

  /** One answer slot: `None` until the radio has reported a value. */
  type Slot = Option<string>

  /** The radio's options, in the order the source lists them. */
  const RadioOptions: seq<string> := ["Yes", "No"]

  /** `ans in ("Yes", "No")`. */
  predicate IsChoice(a: Slot) {
    a == Some("Yes") || a == Some("No")
  }

  /**
   * The radio's `index` argument: `0` for "Yes", `1` for "No", `None` (no
   * preselection) for anything else. A present index points back at the
   * slot's own value among the options.
   */
  function RadioIndex(a: Slot): (index: Option<nat>)
    ensures index.Some? <==> IsChoice(a)
    ensures index.Some? ==> index.value < |RadioOptions| && Some(RadioOptions[index.value]) == a
  {
    if a == Some("Yes") then Some(0)
    else if a == Some("No") then Some(1)
    else None
  }

  /** Preselecting an option and reading the slot back gives the same index. */
  lemma RadioIndexOfOption(k: nat)
    requires k < |RadioOptions|
    ensures RadioIndex(Some(RadioOptions[k])) == Some(k)
  {
  }

  /**
   * `all_answered`: every slot holds "Yes" or "No" (true of no slots at all);
   * equivalently, the radio of every pair has an option preselected, and no
   * slot is still `None`.
   */
  predicate AllAnswered(answers: seq<Slot>): (ok: bool)
    ensures ok <==> forall a :: a in answers ==> RadioIndex(a).Some?
    ensures ok ==> None !in answers
  {
    forall a :: a in answers ==> IsChoice(a)
  }

  /** The characters Python's `str.isspace` accepts, which `str.strip()` removes. */
  predicate IsSpace(c: char): (space: bool)
    ensures c == ' ' || c == '\t' || c == '\n' || c == '\r' ==> space
    ensures space ==> c != '@' && c != '.'
  {
    var n := c as int;
    (0x09 <= n <= 0x0D) || (0x1C <= n <= 0x20) || n == 0x85 || n == 0xA0 || n == 0x1680
    || (0x2000 <= n <= 0x200A) || n == 0x2028 || n == 0x2029 || n == 0x202F || n == 0x205F
    || n == 0x3000
  }

  /** `s` with its leading whitespace removed: the suffix that starts at the first non-space. */
  function TrimStart(s: string): (r: string)
    decreases |s|
    ensures |r| <= |s| && r == s[|s| - |r|..]
    ensures forall i :: 0 <= i < |s| - |r| ==> IsSpace(s[i])
    ensures r == [] || !IsSpace(r[0])
  {
    if |s| > 0 && IsSpace(s[0]) then TrimStart(s[1..]) else s
  }

  /** `s` with its trailing whitespace removed: the prefix that ends at the last non-space. */
  function TrimEnd(s: string): (r: string)
    decreases |s|
    ensures |r| <= |s| && r == s[..|r|]
    ensures forall i :: |r| <= i < |s| ==> IsSpace(s[i])
    ensures r == [] || !IsSpace(r[|r| - 1])
  {
    if |s| > 0 && IsSpace(s[|s| - 1]) then TrimEnd(s[..|s| - 1]) else s
  }

  /** `str.strip()`: empty exactly when `s` is all whitespace; otherwise it starts and ends with a non-space. */
  function Strip(s: string): (r: string)
    ensures r == [] <==> forall i :: 0 <= i < |s| ==> IsSpace(s[i])
    ensures r == [] || (!IsSpace(r[0]) && !IsSpace(r[|r| - 1]))
  {
    TrimEnd(TrimStart(s))
  }

  /**
   * `email_entered`: the stripped email is not empty and the email holds `@`
   * and `.`. Since the strip test is implied by the `@`, this asks only for an
   * `@` and a `.`, in any order.
   */
  predicate EmailEntered(email: string): (ok: bool)
    ensures ok <==> '@' in email && '.' in email
  {
    AtIsNotBlank(email);
    Strip(email) != "" && '@' in email && '.' in email
  }

  /** The `strip() != ""` test adds nothing: an email holding `@` is not all whitespace. */
  lemma AtIsNotBlank(email: string)
    ensures '@' in email ==> Strip(email) != ""
  {
  }

  /** The `.` may come before the `@`. */
  lemma DotBeforeAtPasses()
    ensures EmailEntered("a.b@c")
  {
  }

  /** A string without `@` never passes. */
  lemma NoAtFails()
    ensures !EmailEntered("not-an-email")
  {
    var e := "not-an-email";
    assert forall i :: 0 <= i < |e| ==> e[i] != '@';
  }
}
