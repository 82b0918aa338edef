/** Removal of one pair of matching quotes around a string. */
module Quoting {

  predicate IsQuote(c: char)
  {
    c == '"' || c == '\''
  }

  /** `s` without its first and last character when it has at least two,
      they are the same character, and that character is a double or a
      single quote; otherwise `s` unchanged. */
  function Unquote(s: string): (r: string)
    ensures |r| < |s| <==> |s| >= 2 && IsQuote(s[0]) && s[0] == s[|s| - 1]
    ensures |r| < |s| ==> s == [s[0]] + r + [s[0]]
    ensures |r| >= |s| ==> r == s
  {
    if |s| >= 2 && IsQuote(s[0]) && s[0] == s[|s| - 1] then
      assert s == [s[0]] + s[1..|s| - 1] + [s[|s| - 1]];
      s[1..|s| - 1]
    else s
  }

  /** Unquote undoes quoting: whatever the text between, one pair of quotes
      of either kind around it is removed, and only that pair. */
  lemma UnquoteOfQuoted(q: char, text: string)
    requires IsQuote(q)
    ensures Unquote([q] + text + [q]) == text
  {
    var s := [q] + text + [q];
    assert s[1..|s| - 1] == text;
  }

  /** The strings made only of quotes: "" and a lone quote stay as they
      are, two matching quotes become "", three become one. */
  lemma UnquoteOfQuotesOnly(q: char)
    requires IsQuote(q)
    ensures Unquote("") == "" && Unquote([q]) == [q]
    ensures Unquote([q, q]) == "" && Unquote([q, q, q]) == [q]
  {
  }

  /** A quote on one side only is left alone, whatever the text beside it. */
  lemma UnquoteLeavesOneSided(q: char, text: string)
    requires IsQuote(q)
    ensures |text| == 0 || text[|text| - 1] != q ==> Unquote([q] + text) == [q] + text
    ensures |text| == 0 || text[0] != q ==> Unquote(text + [q]) == text + [q]
  {
    var s, t := [q] + text, text + [q];
    assert s[0] == q && t[|t| - 1] == q;
    if |text| > 0 {
      assert s[|s| - 1] == text[|text| - 1] && t[0] == text[0];
    }
  }

  /** Quotes of different kinds at the two ends are left alone. */
  lemma UnquoteLeavesMismatched(p: char, q: char, text: string)
    requires p != q
    ensures Unquote([p] + text + [q]) == [p] + text + [q]
  {
    var s := [p] + text + [q];
    assert s[0] == p && s[|s| - 1] == q;
  }
}
