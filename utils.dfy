/**
 * Configuration lookups shared by the widgets (common/Utils.java): a string
 * parameter whose value is blank counts as absent, a required parameter that
 * is absent raises a RequiredParameterException, and a date window is an
 * immutable pair of instants.
 *
 * Java's nullable references become Option, and the exceptions the core can
 * raise become the Exception datatype carried by Result.
 */
module Utils {

  datatype Option<+T> = None | Some(value: T)

  datatype Result<+T, +E> = Success(value: T) | Failure(error: E) {
    predicate IsFailure() { Failure? }

    function PropagateFailure<U>(): Result<U, E>
      requires Failure?
    {
      Failure(error)
    }

    function Extract(): T
      requires Success?
    {
      value
    }
  }

  /** The exceptions the trend-chart core raises or lets through. */
  datatype Exception =
    | RequiredParameter(message: string)  // Utils.RequiredParameterException
    | IllegalArgument(name: string)       // Enum.valueOf on a name that is no constant
    | NumberFormat(input: string)         // Integer.parseInt on a malformed cell
    | DateParse(input: string)            // SimpleDateFormat.parse, rethrown as a RuntimeException
    | IndexOutOfBounds(index: int)        // a data row longer than the header row
    | Io(location: string)                // the repository could not deliver the resource

  /** A string parameter of the widget configuration: its label (caption) and its raw value (null when unset). */
  datatype StringParameter = StringParameter(caption: string, value: Option<string>)

  /** A composite parameter: its string parameters by id. */
  type CompositeParameter = map<string, StringParameter>

  /** `String.trim()` removes every leading and trailing character up to U+0020, so `trim().isEmpty()` holds exactly when no character is above it. */
  predicate IsBlank(s: string) {
    forall i :: 0 <= i < |s| ==> s[i] <= ' '
  }

  /** Utils.getStringParameterValue: null for an unset or whitespace-only value, the value itself (untrimmed) otherwise. */
  function GetStringParameterValue(p: StringParameter): (r: Option<string>)
    ensures r.None? <==> p.value.None? || IsBlank(p.value.value)
    ensures r.Some? ==> r == p.value && exists i :: 0 <= i < |r.value| && r.value[i] > ' '
  {
    if p.value.None? || IsBlank(p.value.value) then None else p.value
  }

  /** The message of a RequiredParameterException for a parameter with this label. */
  function RequiredMessage(caption: string): (m: string)
    ensures m == "Parameter '" + caption + "' is required"
    ensures |m| == |caption| + 24
  {
    "Parameter '" + caption + "' is required"
  }

  /** Utils.getRequiredStringParameterValue: throws exactly when the optional lookup yields null. */
  function GetRequiredStringParameterValue(p: StringParameter): (r: Result<string, Exception>)
    ensures r.Failure? <==> GetStringParameterValue(p).None?
    ensures r.Success? ==> GetStringParameterValue(p) == Some(r.value) && !IsBlank(r.value)
    ensures r.Failure? ==> r.error == RequiredParameter(RequiredMessage(p.caption))
  {
    match GetStringParameterValue(p)
    case None => Failure(RequiredParameter(RequiredMessage(p.caption)))
    case Some(v) => Success(v)
  }

  /** Utils.atLeastOneParameterIsSet: an early-return search over the ids, in order. */
  function AtLeastOneParameterIsSet(parent: CompositeParameter, ids: seq<string>): (r: bool)
    requires forall i :: 0 <= i < |ids| ==> ids[i] in parent
    ensures ids == [] ==> !r
  {
    if ids == [] then false
    else if GetStringParameterValue(parent[ids[0]]).Some? then true
    else AtLeastOneParameterIsSet(parent, ids[1..])
  }

  /** The search succeeds exactly when some listed id has a non-blank value. */
  lemma {:induction false} AtLeastOneParameterIsSetIff(parent: CompositeParameter, ids: seq<string>)
    requires forall i :: 0 <= i < |ids| ==> ids[i] in parent
    ensures AtLeastOneParameterIsSet(parent, ids) <==>
            exists i :: 0 <= i < |ids| && GetStringParameterValue(parent[ids[i]]).Some?
  {
    if ids != [] {
      AtLeastOneParameterIsSetIff(parent, ids[1..]);
      forall i | 1 <= i < |ids|
        ensures ids[i] == ids[1..][i - 1]
      {
      }
    }
  }

  /** The order (and repetition) of the ids does not matter, only which ids are listed. */
  lemma {:induction false} AtLeastOneParameterIsSetOrderFree(parent: CompositeParameter, ids: seq<string>, ids': seq<string>)
    requires forall i :: 0 <= i < |ids| ==> ids[i] in parent
    requires forall id :: id in ids <==> id in ids'
    ensures forall i :: 0 <= i < |ids'| ==> ids'[i] in parent
    ensures AtLeastOneParameterIsSet(parent, ids) == AtLeastOneParameterIsSet(parent, ids')
  {
    assert forall i :: 0 <= i < |ids'| ==> ids'[i] in ids;
    AtLeastOneParameterIsSetIff(parent, ids);
    AtLeastOneParameterIsSetIff(parent, ids');
    if AtLeastOneParameterIsSet(parent, ids) {
      var i :| 0 <= i < |ids| && GetStringParameterValue(parent[ids[i]]).Some?;
      assert ids[i] in ids';
      var j :| 0 <= j < |ids'| && ids'[j] == ids[i];
    }
    if AtLeastOneParameterIsSet(parent, ids') {
      var j :| 0 <= j < |ids'| && GetStringParameterValue(parent[ids'[j]]).Some?;
      assert ids'[j] in ids;
      var i :| 0 <= i < |ids| && ids[i] == ids'[j];
    }
  }

  /** Utils.Dates: the inclusive window [from, to] of instants (milliseconds), stored as given. */
  datatype Dates = Dates(from: int, to: int) {
    predicate Contains(t: int) {
      from <= t <= to
    }
  }
}
