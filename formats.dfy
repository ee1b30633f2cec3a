/** The closed table from wire format to discovery group name. */
module Formats {
  import opened Values
  import PyText

  /** The family every discovery group name starts with. */
  const FAMILY: string := "pupil-mobile"

  /** The delimiter between family and version in a group name. */
  const VERSION_SEP: string := "-v"

  /** `group_name_from_format`: one group per known format, an error for any other. */
  function GroupNameFromFormat(format: DataFormat): (r: Result<string>)
    ensures format == V3 <==> r == Ok("pupil-mobile-v3")
    ensures format == V4 <==> r == Ok("pupil-mobile-v4")
    ensures format.OtherFormat? <==> r == Err(UnsupportedFormat)
  {
    match format
    case V3 => Ok("pupil-mobile-v3")
    case V4 => Ok("pupil-mobile-v4")
    case OtherFormat(_) => Err(UnsupportedFormat)
  }

  /** A node's own group name splits, as the version gate splits it, into the
      family and the format's version digit. */
  lemma GroupNameSplits(format: DataFormat)
    requires GroupNameFromFormat(format).Ok?
    ensures PyText.Split(GroupNameFromFormat(format).value, VERSION_SEP)
         == [FAMILY, if format == V3 then "3" else "4"]
  {
    assert !PyText.Contains(FAMILY + "-", VERSION_SEP) by {
      var t := FAMILY + "-";
      forall j | 0 <= j <= |t| ensures !PyText.OccursAt(t, VERSION_SEP, j) {
        assert j + 2 <= |t| ==> t[j + 1] != 'v';
      }
    }
    var digit := if format == V3 then "3" else "4";
    assert VERSION_SEP[..|VERSION_SEP| - 1] == "-";
    PyText.SplitOfPrefixed(FAMILY, VERSION_SEP, digit);
    assert FAMILY + VERSION_SEP + digit == GroupNameFromFormat(format).value;
    PyText.SplitWithoutSep(digit, VERSION_SEP);
  }
}
