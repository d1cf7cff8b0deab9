/** The rule the brand and product dropdowns share: the select's 'none'
    value, the first-match lookup of a chosen value, and the value the select
    shows for a selection. `code` reads an option's code.
 */
module CodePicker {
  import opened Base
  import opened Seqs

  /** The select's value for "nothing selected". */
  const NoneValue := "none"

  function CodeIs<T>(code: T -> string, value: string): T -> bool
  {
    (x: T) => code(x) == value
  }

  /** 'none' selects nothing; any other value selects the first option with
      that code, or nothing when no option has it. */
  function Pick<T>(options: seq<T>, code: T -> string, value: string): (r: Option<T>)
    ensures value == NoneValue ==> r.None?
    ensures value != NoneValue ==> (r.None? <==> forall i :: 0 <= i < |options| ==> code(options[i]) != value)
    ensures r.Some? ==> exists i :: 0 <= i < |options| && options[i] == r.value && code(options[i]) == value
                                    && forall j :: 0 <= j < i ==> code(options[j]) != value
    ensures r.Some? ==> code(r.value) != NoneValue
  {
    if value == NoneValue then None else Find(options, CodeIs(code, value))
  }

  /** The select shows the selection's code, or 'none' when nothing is
      selected or the code is empty. */
  function Shown<T>(selected: Option<T>, code: T -> string): (v: string)
    ensures selected.Some? && code(selected.value) != "" ==> v == code(selected.value)
    ensures selected.None? || code(selected.value) == "" ==> v == NoneValue
  {
    if selected.Some? && code(selected.value) != "" then code(selected.value) else NoneValue
  }

  /** Choosing the value shown for an option gives back that option, when it
      is the first with its code and the code is neither empty nor 'none'. */
  lemma PickShownRoundTrip<T>(options: seq<T>, code: T -> string, i: nat)
    requires i < |options|
    requires code(options[i]) != "" && code(options[i]) != NoneValue
    requires forall j :: 0 <= j < i ==> code(options[j]) != code(options[i])
    ensures Pick(options, code, Shown(Some(options[i]), code)) == Some(options[i])
  {
    var value := code(options[i]);
    var r := Pick(options, code, value);
    var k :| 0 <= k < |options| && options[k] == r.value && code(options[k]) == value
             && forall j :: 0 <= j < k ==> code(options[j]) != value;
    assert k == i;
  }

  /** An option whose code is 'none' shows as "nothing selected", and no
      value selects it: such an option can never be selected. */
  lemma NoneCodedUnselectable<T>(options: seq<T>, code: T -> string, x: T, value: string)
    requires code(x) == NoneValue
    ensures Shown(Some(x), code) == NoneValue
    ensures Pick(options, code, value) != Some(x)
  {
  }
}
