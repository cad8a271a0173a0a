/**
 * Month codes of streamlit_app.py: `format_month` / `pretty_date` turn a file
 * month "YYYYMM" into a label such as "Jan 2026", and `month_mapping` maps each
 * label back to its code so that the month picked by label is used as a code.
 */
module Months {
  import opened Wrappers

  predicate IsDigit(c: char)
  {
    '0' <= c <= '9'
  }

  /** `%b` for a two-digit month number, in the C locale. */
  function MonthName(mm: string): Option<string>
  {
    if mm == "01" then Some("Jan") else if mm == "02" then Some("Feb")
    else if mm == "03" then Some("Mar") else if mm == "04" then Some("Apr")
    else if mm == "05" then Some("May") else if mm == "06" then Some("Jun")
    else if mm == "07" then Some("Jul") else if mm == "08" then Some("Aug")
    else if mm == "09" then Some("Sep") else if mm == "10" then Some("Oct")
    else if mm == "11" then Some("Nov") else if mm == "12" then Some("Dec")
    else None
  }

  /** The two-digit month number of a `%b` name. */
  function MonthNumber(name: string): Option<string>
  {
    if name == "Jan" then Some("01") else if name == "Feb" then Some("02")
    else if name == "Mar" then Some("03") else if name == "Apr" then Some("04")
    else if name == "May" then Some("05") else if name == "Jun" then Some("06")
    else if name == "Jul" then Some("07") else if name == "Aug" then Some("08")
    else if name == "Sep" then Some("09") else if name == "Oct" then Some("10")
    else if name == "Nov" then Some("11") else if name == "Dec" then Some("12")
    else None
  }

  /** Each month name is three letters and leads back to its number. */
  lemma MonthNameRoundTrip(mm: string)
    requires MonthName(mm).Some?
    ensures |MonthName(mm).value| == 3
    ensures MonthNumber(MonthName(mm).value) == Some(mm)
  {
  }

  /** A code `strptime(code, "%Y%m")` accepts: four year digits (from 1000) and a month 01-12. */
  predicate ValidCode(code: string)
  {
    && |code| == 6
    && (forall i :: 0 <= i < 6 ==> IsDigit(code[i]))
    && code[0] != '0'
    && MonthName(code[4..]).Some?
  }

  /** `format_month`: "202601" becomes "Jan 2026"; an invalid code makes strptime raise (None). */
  function FormatMonth(code: string): (shown: Option<string>)
    ensures shown.Some? <==> ValidCode(code)
    ensures shown.Some? ==> |shown.value| == 8 && shown.value[4..] == code[..4]
  {
    if ValidCode(code) then
      MonthNameRoundTrip(code[4..]);
      Some(MonthName(code[4..]).value + " " + code[..4])
    else None
  }

  /** The code a label stands for: the inverse of `FormatMonth`. */
  function ParseLabel(shown: string): Option<string>
  {
    if |shown| == 8 && shown[3] == ' ' && MonthNumber(shown[..3]).Some? then
      Some(shown[4..] + MonthNumber(shown[..3]).value)
    else None
  }

  /** Formatting a valid code loses nothing: the label gives the code back. */
  lemma FormatMonthRoundTrip(code: string)
    requires ValidCode(code)
    ensures ParseLabel(FormatMonth(code).value) == Some(code)
  {
    var name := MonthName(code[4..]).value;
    MonthNameRoundTrip(code[4..]);
    var shown := FormatMonth(code).value;
    assert shown == name + " " + code[..4];
    assert shown[..3] == name;
    assert shown[3] == ' ';
    assert code[..4] + code[4..] == code;
  }

  /** Two valid codes with the same label are the same code. */
  lemma FormatMonthInjective(a: string, b: string)
    requires ValidCode(a) && ValidCode(b)
    requires FormatMonth(a) == FormatMonth(b)
    ensures a == b
  {
    FormatMonthRoundTrip(a);
    FormatMonthRoundTrip(b);
  }

  /**
   * `month_mapping = {format_month(m): m for m in codes}`: None when some code
   * makes strptime raise. Picking any label gives back the code it was made
   * from, and every code can be picked through its label.
   */
  function MonthMapping(codes: seq<string>): (r: Option<map<string, string>>)
    ensures r.None? <==> exists c :: c in codes && !ValidCode(c)
    ensures r.Some? ==> forall c :: c in codes ==> FormatMonth(c).value in r.value && r.value[FormatMonth(c).value] == c
    ensures r.Some? ==> forall k :: k in r.value ==> r.value[k] in codes && FormatMonth(r.value[k]) == Some(k)
  {
    if codes == [] then Some(map[])
    else
      var init := codes[..|codes| - 1];
      var last := codes[|codes| - 1];
      assert codes == init + [last];
      match MonthMapping(init)
      case None => None
      case Some(m) =>
        match FormatMonth(last)
        case None => None
        case Some(shown) =>
          var m' := m[shown := last];
          assert forall c :: c in init && FormatMonth(c).value == shown ==> c == last by {
            forall c | c in init && FormatMonth(c).value == shown ensures c == last {
              FormatMonthInjective(c, last);
            }
          }
          Some(m')
  }

  /** `format_month("202601")` is "Jan 2026". */
  lemma FormatMonthExample()
    ensures FormatMonth("202601") == Some("Jan 2026")
  {
    var code := "202601";
    assert code[4..] == "01" && code[..4] == "2026";
    assert ValidCode(code);
    assert "Jan" + " " + "2026" == "Jan 2026";
  }
}
