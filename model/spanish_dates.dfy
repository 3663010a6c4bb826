/** Spanish long dates such as "5 de marzo de 2024": the month table and the
    two regular expressions that read them, `/(\d{1,2}) de (\w+) de (\d{4})/i`
    (report normalisation) and `/(\d{1,2}) de ([a-zA-Z]+) de (\d{4})/`
    (product statistics). */
module SpanishDates {
  import opened Wrappers
  import opened Seqs
  import opened JsText

  const MonthNames: seq<string> := ["enero", "febrero", "marzo", "abril", "mayo", "junio",
    "julio", "agosto", "septiembre", "octubre", "noviembre", "diciembre"]

  /** `monthNames.indexOf(word.toLowerCase())`, `None` for -1. */
  function MonthIndex(word: string): (r: Option<nat>)
    ensures r.Some? ==> r.value < 12 && Lower(word) == MonthNames[r.value]
    ensures r.None? <==> Lower(word) !in MonthNames
  {
    IndexOf(MonthNames, Lower(word))
  }

  /** A month name is found at its own position, whatever its case. */
  lemma MonthIndexOfName(i: nat, word: string)
    requires i < 12 && Lower(word) == MonthNames[i]
    ensures MonthIndex(word) == Some(i)
  {
    var r := MonthIndex(word);
    assert r.Some?;
    MonthNamesDistinct();
  }

  /** No two months share a name: their first and third letters differ. */
  lemma MonthNamesDistinct()
    ensures forall a, b :: 0 <= a < b < 12 ==> MonthNames[a] != MonthNames[b]
  {
    var sig := ["ee", "fb", "mr", "ar", "my", "jn", "jl", "ao", "sp", "ot", "nv", "dc"];
    assert forall a :: 0 <= a < 12 ==> sig[a] == [MonthNames[a][0], MonthNames[a][2]];
    assert forall a, b :: 0 <= a < b < 12 ==> sig[a] != sig[b];
  }

  /** The capitalised month name date-fns gives for month number `m` (1-based,
      overflow wrapping around the year). */
  function MonthLabel(m: int): string
  {
    Capitalize(MonthNames[(m - 1) % 12])
  }

  /** Characters of `\w` (`ci` does not change it) or of `[a-zA-Z]`. */
  predicate NameChar(c: char, lettersOnly: bool)
  {
    ('a' <= c <= 'z') || ('A' <= c <= 'Z') || (!lettersOnly && (IsDigit(c) || c == '_'))
  }

  /** Length of the run of name characters starting at `p`. */
  function NameRun(s: string, p: nat, lettersOnly: bool): (n: nat)
    requires p <= |s|
    ensures p + n <= |s|
    ensures forall i :: p <= i < p + n ==> NameChar(s[i], lettersOnly)
    ensures p + n < |s| ==> !NameChar(s[p + n], lettersOnly)
    decreases |s| - p
  {
    if p == |s| || !NameChar(s[p], lettersOnly) then 0 else 1 + NameRun(s, p + 1, lettersOnly)
  }

  /** `" de "` at position `q`; with the `i` flag the letters match in any
      case, and `d`, `D`, `e` and `E` are the only characters that lower to
      `d` and `e` (`SepLettersIgnoreCase`). */
  predicate SepAt(s: string, q: nat, ci: bool)
  {
    q + 4 <= |s| && s[q] == ' ' && s[q + 3] == ' '
    && (if ci then (s[q + 1] == 'd' || s[q + 1] == 'D') && (s[q + 2] == 'e' || s[q + 2] == 'E')
        else s[q + 1] == 'd' && s[q + 2] == 'e')
  }

  /** The separator's letters under the `i` flag are those that lower-case
      to `d` and `e`. */
  lemma SepLettersIgnoreCase(c: char)
    ensures LowerChar(c) == 'd' <==> c == 'd' || c == 'D'
    ensures LowerChar(c) == 'e' <==> c == 'e' || c == 'E'
  {
    CaseFacts(c);
  }

  /** The three captured groups: day digits, month word, year digits. */
  datatype HumanDate = HumanDate(dayDigits: string, monthWord: string, yearDigits: string)

  /** How many digits the greedy `\d{1,2}` takes at `p`. */
  function DayLen(s: string, p: nat): (n: nat)
    requires p <= |s|
    ensures p + n <= |s|
  {
    if p + 1 < |s| && IsDigit(s[p]) && IsDigit(s[p + 1]) then 2
    else if p < |s| && IsDigit(s[p]) then 1 else 0
  }

  /** The match starting at `p`, if any. The greedy `\d{1,2}` takes two digits
      when there are two (backing off to one cannot be followed by a space),
      and the greedy name group takes the whole run of name characters. */
  function MatchAt(s: string, p: nat, ci: bool, lettersOnly: bool): Option<HumanDate>
    requires p <= |s|
  {
    var n := DayLen(s, p);
    if n == 0 || !SepAt(s, p + n, ci) then None
    else
      var r := p + n + 4;
      var w := NameRun(s, r, lettersOnly);
      if w == 0 || !SepAt(s, r + w, ci) then None
      else
        var u := r + w + 4;
        if u + 4 <= |s| && AllDigits(s[u..u + 4]) then Some(HumanDate(s[p..p + n], s[r..r + w], s[u..u + 4]))
        else None
  }

  lemma MatchAtIntro(s: string, p: nat, n: nat, w: nat, ci: bool, lettersOnly: bool)
    requires p <= |s| && n > 0 && DayLen(s, p) == n && SepAt(s, p + n, ci)
    requires p + n + 4 + w + 4 + 4 <= |s|
    requires w > 0 && NameRun(s, p + n + 4, lettersOnly) == w && SepAt(s, p + n + 4 + w, ci)
    requires AllDigits(s[p + n + 4 + w + 4..p + n + 4 + w + 8])
    ensures MatchAt(s, p, ci, lettersOnly)
      == Some(HumanDate(s[p..p + n], s[p + n + 4..p + n + 4 + w], s[p + n + 4 + w + 4..p + n + 4 + w + 8]))
  {
  }

  /** `s.match(re)`: the leftmost position where the pattern matches. */
  function Search(s: string, p: nat, ci: bool, lettersOnly: bool): Option<HumanDate>
    requires p <= |s|
    decreases |s| - p
  {
    match MatchAt(s, p, ci, lettersOnly)
    case Some(m) => Some(m)
    case None => if p == |s| then None else Search(s, p + 1, ci, lettersOnly)
  }

  /** The long form of a date. */
  function LongDate(day: nat, monthIndex: nat, year: nat): string
    requires monthIndex < 12
  {
    NatToString(day) + " de " + MonthNames[monthIndex] + " de " + NatToString(year)
  }

  lemma MonthNameLetters(i: nat)
    requires i < 12
    ensures |MonthNames[i]| >= 4
    ensures forall k :: 0 <= k < |MonthNames[i]| ==> 'a' <= MonthNames[i][k] <= 'z'
    ensures Lower(MonthNames[i]) == MonthNames[i]
  {
  }

  lemma {:induction false} NameRunAll(s: string, p: nat, len: nat, lettersOnly: bool)
    requires p + len <= |s|
    requires forall i :: p <= i < p + len ==> NameChar(s[i], lettersOnly)
    requires p + len == |s| || !NameChar(s[p + len], lettersOnly)
    ensures NameRun(s, p, lettersOnly) == len
    decreases len
  {
    if len > 0 {
      NameRunAll(s, p + 1, len - 1, lettersOnly);
    }
  }

  lemma SepFromSlice(s: string, q: nat, ci: bool)
    requires q + 4 <= |s| && s[q..q + 4] == " de "
    ensures SepAt(s, q, ci)
  {
    assert s[q] == s[q..q + 4][0] && s[q + 1] == s[q..q + 4][1];
    assert s[q + 2] == s[q..q + 4][2] && s[q + 3] == s[q..q + 4][3];
  }

  /** Where the groups and separators sit in the joined string. */
  lemma PartsLayout(dd: string, name: string, yy: string)
    requires |yy| == 4
    ensures var s := dd + " de " + name + " de " + yy;
      var n, w := |dd|, |name|;
      && |s| == n + 4 + w + 8
      && s[..n] == dd && s[n..n + 4] == " de "
      && s[n + 4..n + 4 + w] == name && s[n + 4 + w..n + 4 + w + 4] == " de "
      && s[n + 4 + w + 4..n + 4 + w + 8] == yy
  {
    var s := dd + " de " + name + " de " + yy;
    assert s == dd + (" de " + name + " de " + yy);
    assert s == (dd + " de ") + name + (" de " + yy);
  }

  /** Every character of `t` is a name character. */
  predicate NameChars(t: string, lettersOnly: bool)
  {
    forall k :: 0 <= k < |t| ==> NameChar(t[k], lettersOnly)
  }

  /** One or two digits followed by a space are what `\d{1,2}` takes. */
  lemma DayLenOf(s: string, n: nat)
    requires 1 <= n <= 2 && n < |s| && AllDigits(s[..n]) && s[n] == ' '
    ensures DayLen(s, 0) == n
  {
    assert s[0] == s[..n][0];
    if n == 2 {
      assert s[1] == s[..n][1];
    }
  }

  /** A run of name characters ended by a space is what the name group takes. */
  lemma NameRunOf(s: string, r: nat, w: nat, lettersOnly: bool)
    requires r + w < |s| && NameChars(s[r..r + w], lettersOnly) && s[r + w] == ' '
    ensures NameRun(s, r, lettersOnly) == w
  {
    forall i | r <= i < r + w
      ensures NameChar(s[i], lettersOnly)
    {
      assert s[i] == s[r..r + w][i - r];
    }
    NameRunAll(s, r, w, lettersOnly);
  }

  /** A string laid out as day digits, separator, name, separator and four
      year digits matches at its start, capturing those three groups. */
  lemma SlicesMatch(s: string, n: nat, w: nat, ci: bool, lettersOnly: bool)
    requires 1 <= n <= 2 && w > 0 && |s| == n + 4 + w + 8
    requires AllDigits(s[..n]) && s[n..n + 4] == " de "
    requires NameChars(s[n + 4..n + 4 + w], lettersOnly)
    requires s[n + 4 + w..n + 4 + w + 4] == " de " && AllDigits(s[n + 4 + w + 4..])
    ensures MatchAt(s, 0, ci, lettersOnly)
      == Some(HumanDate(s[..n], s[n + 4..n + 4 + w], s[n + 4 + w + 4..]))
  {
    var r := n + 4;
    SepFromSlice(s, n, ci);
    DayLenOf(s, n);
    SepFromSlice(s, r + w, ci);
    NameRunOf(s, r, w, lettersOnly);
    assert s[r + w + 4..r + w + 8] == s[r + w + 4..];
    MatchAtIntro(s, 0, n, w, ci, lettersOnly);
    assert s[0..0 + n] == s[..n];
  }

  /** A string made of the three groups and the separators matches at its start. */
  lemma PartsMatch(dd: string, name: string, yy: string, ci: bool, lettersOnly: bool)
    requires 1 <= |dd| <= 2 && AllDigits(dd)
    requires |name| > 0 && forall k :: 0 <= k < |name| ==> NameChar(name[k], lettersOnly)
    requires |yy| == 4 && AllDigits(yy)
    ensures MatchAt(dd + " de " + name + " de " + yy, 0, ci, lettersOnly) == Some(HumanDate(dd, name, yy))
  {
    var s := dd + " de " + name + " de " + yy;
    var n, w := |dd|, |name|;
    PartsLayout(dd, name, yy);
    assert s[n + 4 + w + 4..] == yy;
    assert NameChars(s[n + 4..n + 4 + w], lettersOnly);
    SlicesMatch(s, n, w, ci, lettersOnly);
  }

  /** Reading a long date back: both patterns match it at the start and
      capture the day, the month name and the year. */
  lemma LongDateMatches(day: nat, monthIndex: nat, year: nat, ci: bool, lettersOnly: bool)
    requires 1 <= day <= 99 && monthIndex < 12 && 1000 <= year <= 9999
    ensures Search(LongDate(day, monthIndex, year), 0, ci, lettersOnly)
      == Some(HumanDate(NatToString(day), MonthNames[monthIndex], NatToString(year)))
  {
    NatToStringDigits(day);
    NatToStringDigits(year);
    MonthNameLetters(monthIndex);
    PartsMatch(NatToString(day), MonthNames[monthIndex], NatToString(year), ci, lettersOnly);
  }
}
