/**
 * The shared `DataInfo` record (one row of a project's data tree), its
 * status codes, and the three display getters the pages call: a preview of
 * the attributes, the insert date without its fraction of a second, and the
 * name of the data's insert type from the common-code cache.
 */
module Data {
  import opened Wrappers

  /** Status codes of a data row: in use, stopped by an administrator, other (hidden). */
  const StatusUse: string := "0"
  const StatusForbid: string := "1"
  const StatusEtc: string := "2"

  lemma StatusCodesDistinct()
    ensures StatusUse != StatusForbid && StatusForbid != StatusEtc && StatusUse != StatusEtc
    ensures |StatusUse| == |StatusForbid| == |StatusEtc| == 1
  {
  }

  /** An entry of the common-code cache: a code and its display name. */
  datatype CommonCode = CommonCode(code: string, codeName: string)

  /**
   * The fields of `DataInfo` the core reads or writes; `None` is Java's null.
   * The remaining columns (coordinates, flags, search fields) are not used by
   * any modelled operation.
   */
  datatype DataInfo = DataInfo(
    projectId: Option<int>,
    sharingType: Option<string>,
    userId: Option<string>,
    dataKey: Option<string>,
    dataName: Option<string>,
    parent: Option<int>,
    depth: Option<int>,
    viewOrder: Option<int>,
    attributes: Option<string>,
    dataInsertType: Option<string>,
    insertDate: Option<string>)

  /** `new DataInfo()`: every field null. */
  const Blank: DataInfo := DataInfo(None, None, None, None, None, None, None, None, None, None, None)

  // ------------------------------------------------------------ attributes

  /** How many characters of the attributes a preview keeps. */
  const PreviewLength: nat := 20
  const Ellipsis: string := "..."

  /**
   * `getViewAttributes`: null, empty and short attributes come back as they
   * are; longer ones are cut to their first 20 characters followed by "...".
   */
  function ViewAttributes(d: DataInfo): (r: Option<string>)
    ensures d.attributes.None? ==> r.None?
    ensures d.attributes.Some? && |d.attributes.value| < PreviewLength ==> r == d.attributes
    ensures d.attributes.Some? && |d.attributes.value| >= PreviewLength ==>
      r.Some? && |r.value| == PreviewLength + |Ellipsis| &&
      r.value[..PreviewLength] == d.attributes.value[..PreviewLength] &&
      r.value[PreviewLength..] == Ellipsis
  {
    match d.attributes
    case None => None
    case Some(a) =>
      if a == "" || |a| < PreviewLength then d.attributes
      else Some(a[..PreviewLength] + Ellipsis)
  }

  /** A string of exactly 20 characters is not shortened but still gets the ellipsis. */
  lemma TwentyCharactersGetEllipsis(d: DataInfo)
    requires d.attributes.Some? && |d.attributes.value| == PreviewLength
    ensures ViewAttributes(d) == Some(d.attributes.value + Ellipsis)
  {
    assert d.attributes.value[..PreviewLength] == d.attributes.value;
  }

  /** A preview is its own preview: showing a shown value again changes nothing. */
  lemma {:induction false} ViewAttributesIdempotent(d: DataInfo)
    ensures ViewAttributes(d.(attributes := ViewAttributes(d))) == ViewAttributes(d)
  {
    var v := ViewAttributes(d);
    if d.attributes.Some? && |d.attributes.value| >= PreviewLength {
      var t := v.value;
      assert t[..PreviewLength] + Ellipsis == t;
    }
  }

  /** The preview agrees with the attributes on every character it keeps. */
  lemma {:induction false} ViewAttributesKeepsPrefix(d: DataInfo, i: int)
    requires d.attributes.Some? && 0 <= i < |d.attributes.value| && i < PreviewLength
    ensures ViewAttributes(d).Some? && i < |ViewAttributes(d).value|
    ensures ViewAttributes(d).value[i] == d.attributes.value[i]
  {
    var v := ViewAttributes(d).value;
    if |d.attributes.value| >= PreviewLength {
      assert v[..PreviewLength][i] == d.attributes.value[..PreviewLength][i];
    }
  }

  // ----------------------------------------------------------- insert date

  /** Characters of a `yyyy-MM-dd HH:mm:ss` timestamp. */
  const DateTimeLength: nat := 19

  /**
   * `getViewInsertDate`: "" for a null or empty date, otherwise the first 19
   * characters; a shorter non-empty date makes `substring` throw.
   */
  function ViewInsertDate(d: DataInfo): (r: Result<string, Fault>)
    ensures r.Err? <==> d.insertDate.Some? && 0 < |d.insertDate.value| < DateTimeLength
    ensures r.Err? ==> r.error == IndexOutOfBounds
    ensures (d.insertDate.None? || d.insertDate == Some("")) ==> r == Ok("")
    ensures r.Ok? && r.value != "" ==>
      |r.value| == DateTimeLength && r.value <= d.insertDate.value
  {
    match d.insertDate
    case None => Ok("")
    case Some(s) =>
      if s == "" then Ok("")
      else if |s| < DateTimeLength then Err(IndexOutOfBounds)
      else Ok(s[..DateTimeLength])
  }

  /** A stored timestamp with fractional seconds is shown down to the second. */
  lemma InsertDateDropsFraction(d: DataInfo, stamp: string, fraction: string)
    requires |stamp| == DateTimeLength && d.insertDate == Some(stamp + fraction)
    ensures ViewInsertDate(d) == Ok(stamp)
  {
    assert (stamp + fraction)[..DateTimeLength] == stamp;
  }

  // ----------------------------------------------------------- insert type

  /**
   * `getViewDataInsertType`: the display name the common-code cache holds for
   * the data's insert type; "" when the type is null or empty or the cache
   * has no such code. The empty type yields "" even if the cache lists "".
   */
  function ViewDataInsertType(d: DataInfo, codes: map<string, CommonCode>): (r: string)
    ensures d.dataInsertType.None? || d.dataInsertType == Some("") ==> r == ""
    ensures d.dataInsertType.Some? && d.dataInsertType.value !in codes ==> r == ""
    ensures d.dataInsertType.Some? && d.dataInsertType.value != "" && d.dataInsertType.value in codes ==>
      r == codes[d.dataInsertType.value].codeName
  {
    match d.dataInsertType
    case None => ""
    case Some(t) =>
      if t == "" then ""
      else if t !in codes then ""
      else codes[t].codeName
  }

  /** A non-empty display name always comes from the cache entry of the data's own code. */
  lemma ViewDataInsertTypeFromCache(d: DataInfo, codes: map<string, CommonCode>)
    requires ViewDataInsertType(d, codes) != ""
    ensures d.dataInsertType.Some? && d.dataInsertType.value in codes
    ensures ViewDataInsertType(d, codes) == codes[d.dataInsertType.value].codeName
  {
  }
}
