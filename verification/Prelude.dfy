/** Helpers every module shares: a nullable value, a result, and the string operations of JavaScript
    on ASCII text. */
module Prelude {

  /** A nullable column, or the result of a lookup that may find nothing. */
  datatype Option<+T> = None | Some(value: T)

  predicate IsSpace(c: char) { c in {' ', '\t', '\n', '\r', '\U{000B}', '\U{000C}'} }

  function TrimStart(s: string): string {
    if s != "" && IsSpace(s[0]) then TrimStart(s[1..]) else s
  }

  function TrimEnd(s: string): string {
    if s != "" && IsSpace(s[|s| - 1]) then TrimEnd(s[..|s| - 1]) else s
  }

  function Trim(s: string): string { TrimEnd(TrimStart(s)) }

  function UpperChar(c: char): char {
    if 'a' <= c <= 'z' then c - 'a' + 'A' else c
  }

  function Upper(s: string): (r: string)
    ensures |r| == |s|
    ensures forall i :: 0 <= i < |s| ==> r[i] == UpperChar(s[i])
  {
    seq(|s|, i requires 0 <= i < |s| => UpperChar(s[i]))
  }

  predicate Bare(s: string) {
    s == "" || (!IsSpace(s[0]) && !IsSpace(s[|s| - 1]))
  }

  lemma {:induction false} TrimStartStops(s: string)
    ensures TrimStart(s) == "" || !IsSpace(TrimStart(s)[0])
  {
    if s != "" && IsSpace(s[0]) { TrimStartStops(s[1..]); }
  }

  lemma {:induction false} TrimEndStops(s: string)
    requires s == "" || !IsSpace(s[0])
    ensures Bare(TrimEnd(s))
  {
    if s != "" && IsSpace(s[|s| - 1]) { TrimEndStops(s[..|s| - 1]); }
  }

  // ---- Text up to blanks and case -----------------------------------------------------------------------

  const BLANKS := " \t\n\r\U{000B}\U{000C}"

  predicate AllBlank(s: string) { forall i | 0 <= i < |s| :: s[i] in BLANKS }

  /** A capital letter and its small one lie 32 apart. */
  predicate SmallOf(c: char, d: char) { 65 <= c as int <= 90 && d as int == c as int + 32 }

  predicate SameLetter(c: char, d: char) { c == d || SmallOf(c, d) || SmallOf(d, c) }

  lemma SameLetterIff(c: char, d: char)
    ensures SameLetter(c, d) <==> UpperChar(c) == UpperChar(d)
  {
  }

  /** The same text, letter by letter, in whatever case. */
  predicate Recased(s: string, t: string) {
    |s| == |t| && forall i | 0 <= i < |s| :: SameLetter(s[i], t[i])
  }

  lemma {:induction false} LeadingBlanksGo(blanks: string, s: string)
    requires AllBlank(blanks)
    ensures TrimStart(blanks + s) == TrimStart(s)
  {
    if blanks == "" {
      assert blanks + s == s;
    } else {
      LeadingBlanksGo(blanks[1..], s);
      assert (blanks + s)[1..] == blanks[1..] + s;
    }
  }

  lemma {:induction false} TrailingBlanksGo(s: string, blanks: string)
    requires AllBlank(blanks)
    ensures TrimEnd(s + blanks) == TrimEnd(s)
  {
    if blanks == "" {
      assert s + blanks == s;
    } else {
      var rest := blanks[..|blanks| - 1];
      TrailingBlanksGo(s, rest);
      assert (s + blanks)[..|s + blanks| - 1] == s + rest;
    }
  }

  lemma {:induction false} StartOfAppended(s: string, blanks: string)
    requires AllBlank(blanks)
    ensures TrimEnd(TrimStart(s + blanks)) == TrimEnd(TrimStart(s))
  {
    if s == "" {
      LeadingBlanksGo(blanks, "");
      assert s + blanks == blanks + "";
    } else if IsSpace(s[0]) {
      StartOfAppended(s[1..], blanks);
      assert (s + blanks)[1..] == s[1..] + blanks;
    } else {
      TrailingBlanksGo(s, blanks);
    }
  }

  lemma SurroundingBlanksGo(before: string, s: string, after: string)
    requires AllBlank(before) && AllBlank(after)
    ensures Trim(before + s + after) == Trim(s)
  {
    assert before + s + after == before + (s + after);
    LeadingBlanksGo(before, s + after);
    StartOfAppended(s, after);
  }

  lemma BlanksHaveNoCase(c: char, d: char)
    requires SameLetter(c, d)
    ensures IsSpace(c) <==> IsSpace(d)
  {
    SameLetterIff(c, d);
  }

  lemma {:induction false} TrimStartRecased(s: string, t: string)
    requires Recased(s, t)
    ensures Recased(TrimStart(s), TrimStart(t))
  {
    if s != "" {
      BlanksHaveNoCase(s[0], t[0]);
      if IsSpace(s[0]) { TrimStartRecased(s[1..], t[1..]); }
    }
  }

  lemma {:induction false} TrimEndRecased(s: string, t: string)
    requires Recased(s, t)
    ensures Recased(TrimEnd(s), TrimEnd(t))
  {
    if s != "" {
      BlanksHaveNoCase(s[|s| - 1], t[|t| - 1]);
      if IsSpace(s[|s| - 1]) { TrimEndRecased(s[..|s| - 1], t[..|t| - 1]); }
    }
  }

  /** The text is this word, in any case and with any blanks around it. */
  ghost predicate Reads(text: string, word: string) {
    exists before: string, typed: string, after: string :: ReadsAs(text, word, before, typed, after)
  }

  predicate ReadsAs(text: string, word: string, before: string, typed: string, after: string) {
    AllBlank(before) && AllBlank(after) && Recased(typed, word) && text == before + typed + after
  }

  lemma {:induction false} TrimStartSplits(s: string) returns (before: string)
    ensures AllBlank(before) && s == before + TrimStart(s)
  {
    before := "";
    if s != "" && IsSpace(s[0]) {
      var rest := TrimStartSplits(s[1..]);
      before := [s[0]] + rest;
    }
  }

  lemma {:induction false} TrimEndSplits(s: string) returns (after: string)
    ensures AllBlank(after) && s == TrimEnd(s) + after
  {
    after := "";
    if s != "" && IsSpace(s[|s| - 1]) {
      var rest := TrimEndSplits(s[..|s| - 1]);
      after := rest + [s[|s| - 1]];
    }
  }

  /** Trimming takes off blanks and nothing else. */
  lemma TrimSplits(s: string)
    ensures Bare(Trim(s))
    ensures exists before: string, after: string ::
      AllBlank(before) && AllBlank(after) && s == before + Trim(s) + after
  {
    TrimStartStops(s);
    TrimEndStops(TrimStart(s));
    var before := TrimStartSplits(s);
    var after := TrimEndSplits(TrimStart(s));
    assert s == before + Trim(s) + after;
  }

  lemma BareStays(s: string)
    requires Bare(s)
    ensures Trim(s) == s
  {
  }

  lemma ReadTrims(word: string, before: string, typed: string, after: string)
    requires Bare(word) && Upper(word) == word
    requires AllBlank(before) && AllBlank(after) && Recased(typed, word)
    ensures Upper(Trim(before + typed + after)) == word
  {
    SurroundingBlanksGo(before, typed, after);
    TrimStartRecased(typed, word);
    TrimEndRecased(TrimStart(typed), TrimStart(word));
    BareStays(word);
    SameWhenUpper(Trim(typed), word);
  }

  /** Trimming and upper-casing compares exactly that. */
  lemma ReadsIff(text: string, word: string)
    requires Bare(word) && Upper(word) == word
    ensures Reads(text, word) <==> Upper(Trim(text)) == word
  {
    if Reads(text, word) {
      var before, typed, after :| ReadsAs(text, word, before, typed, after);
      ReadTrims(word, before, typed, after);
    }
    if Upper(Trim(text)) == word {
      SameWhenUpper(Trim(text), word);
      TrimSplits(text);
      var before: string, after: string :| AllBlank(before) && AllBlank(after) && text == before + Trim(text) + after;
      assert ReadsAs(text, word, before, Trim(text), after);
    }
  }

  lemma SameWhenUpper(s: string, t: string)
    ensures Recased(s, t) <==> Upper(s) == Upper(t)
  {
    if |s| == |t| {
      forall i | 0 <= i < |s| { SameLetterIff(s[i], t[i]); }
      assert Upper(s) == Upper(t) ==> forall i | 0 <= i < |s| :: Upper(s)[i] == Upper(t)[i];
    } else {
      assert |Upper(s)| != |Upper(t)|;
    }
  }

  lemma BlankTrims(s: string)
    ensures AllBlank(s) <==> Trim(s) == ""
  {
    if AllBlank(s) {
      SurroundingBlanksGo(s, "", "");
      assert s + "" + "" == s;
    } else {
      var before := TrimStartSplits(s);
      var after := TrimEndSplits(TrimStart(s));
      assert Trim(s) == "" ==> s == before + after;
    }
  }
}
