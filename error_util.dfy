/** The banner text of client/src/util/errorUtil.ts. */
module ErrorUtil {
  import opened Models

  const Lead := "There was a problem "
  const Separator := ": "
  const Stop := ". "
  const TryAgain := "Please try again."

  /** `getErrorMessage(type, errorMsg, tryAgain = true)`: the lead, the action,
      a colon, the detail, a full stop and, unless `tryAgain` is false, the
      request to try again. */
  function GetErrorMessage(action: string, errorMsg: string, tryAgain: bool := true): (r: string)
    ensures |r| == 20 + |action| + 2 + |errorMsg| + 2 + (if tryAgain then 17 else 0)
    ensures r[..20] == "There was a problem "
    ensures r[20..20 + |action|] == action
    ensures r[20 + |action|..22 + |action|] == ": "
    ensures r[22 + |action|..22 + |action| + |errorMsg|] == errorMsg
    ensures r[22 + |action| + |errorMsg|..24 + |action| + |errorMsg|] == ". "
    ensures tryAgain ==> r[24 + |action| + |errorMsg|..] == "Please try again."
    ensures !tryAgain ==> |r| == 24 + |action| + |errorMsg|
  {
    Lead + action + Separator + errorMsg + Stop + (if tryAgain then TryAgain else "")
  }

  /** Reads a banner back, given the length of its action: the action, the
      detail and whether it asks to try again, or None when `m` is not a
      banner with an action of that length. A banner asking to try again
      ends in '.', one that does not ends in ' '. */
  function ParseErrorMessage(m: string, actionLength: nat): (r: Option<(string, string, bool)>)
  {
    if |m| < 24 + actionLength || m[..20] != Lead
       || m[20 + actionLength..22 + actionLength] != Separator
    then None
    else
      var tryAgain := m[|m| - 1] == '.';
      var tail := if tryAgain then Stop + TryAgain else Stop;
      if |m| < 22 + actionLength + |tail| || m[|m| - |tail|..] != tail then None
      else Some((m[20..20 + actionLength], m[22 + actionLength..|m| - |tail|], tryAgain))
  }

  /** Every banner reads back to the action, detail and flag it was made from. */
  lemma ParseGetErrorMessage(action: string, errorMsg: string, tryAgain: bool)
    ensures ParseErrorMessage(GetErrorMessage(action, errorMsg, tryAgain), |action|)
            == Some((action, errorMsg, tryAgain))
  {
    var m := GetErrorMessage(action, errorMsg, tryAgain);
    var tail := if tryAgain then Stop + TryAgain else Stop;
    assert m == Lead + action + Separator + errorMsg + tail;
    assert m[|m| - 1] == tail[|tail| - 1];
    assert m[|m| - |tail|..] == tail;
    assert m[22 + |action|..|m| - |tail|] == errorMsg;
  }

  /** Whatever reads back as a banner is the banner of what it reads back to. */
  lemma GetErrorMessageOfParse(m: string, actionLength: nat)
    requires ParseErrorMessage(m, actionLength).Some?
    ensures var (action, errorMsg, tryAgain) := ParseErrorMessage(m, actionLength).value;
            |action| == actionLength && GetErrorMessage(action, errorMsg, tryAgain) == m
  {
    var (action, errorMsg, tryAgain) := ParseErrorMessage(m, actionLength).value;
    var tail := if tryAgain then Stop + TryAgain else Stop;
    SplitFive(m, Lead, action, Separator, errorMsg, tail);
    assert GetErrorMessage(action, errorMsg, tryAgain) == Lead + action + Separator + errorMsg + tail;
  }

  /** A string whose five consecutive slices are the given pieces is their
      concatenation. */
  lemma SplitFive(m: string, p1: string, p2: string, p3: string, p4: string, p5: string)
    requires |m| == |p1| + |p2| + |p3| + |p4| + |p5|
    requires m[..|p1|] == p1
    requires m[|p1|..|p1| + |p2|] == p2
    requires m[|p1| + |p2|..|p1| + |p2| + |p3|] == p3
    requires m[|p1| + |p2| + |p3|..|m| - |p5|] == p4
    requires m[|m| - |p5|..] == p5
    ensures m == p1 + p2 + p3 + p4 + p5
  {
    var a, b, c, d := |p1|, |p1| + |p2|, |p1| + |p2| + |p3|, |m| - |p5|;
    assert m == m[..a] + m[a..b] + m[b..c] + m[c..d] + m[d..];
  }

  /** Two banners with actions of one length are equal only when they were
      made from the same action, detail and flag. */
  lemma GetErrorMessageInjective(a1: string, e1: string, t1: bool, a2: string, e2: string, t2: bool)
    requires |a1| == |a2|
    requires GetErrorMessage(a1, e1, t1) == GetErrorMessage(a2, e2, t2)
    ensures a1 == a2 && e1 == e2 && t1 == t2
  {
    ParseGetErrorMessage(a1, e1, t1);
    ParseGetErrorMessage(a2, e2, t2);
  }
}
