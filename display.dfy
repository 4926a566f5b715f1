/** Display helpers of the browser code: the season of a month (southern hemisphere) and the
    title-casing of the raw `location` form value shown in the plan summary. */
module Display {
  import opened Wrappers
  import opened Text

  /** getSeason, with the month (1-12) as a parameter; any other number matches no case and
      the function returns undefined. */
  function GetSeason(month: int): (season: Option<string>)
    ensures season.Some? <==> 1 <= month <= 12
  {
    if month in {12, 1, 2} then Some("summer")
    else if month in {3, 4, 5} then Some("autumn")
    else if month in {6, 7, 8} then Some("winter")
    else if month in {9, 10, 11} then Some("spring")
    else None
  }

  /** The seasons by quarter of the year, starting in December. */
  function SeasonOfQuarter(q: nat): string
    requires q < 4
  {
    ["summer", "autumn", "winter", "spring"][q]
  }

  /** Each month lies in exactly one season: the one of its three-month block counted
      from December. */
  lemma GetSeasonByQuarter(month: int)
    requires 1 <= month <= 12
    ensures GetSeason(month) == Some(SeasonOfQuarter((month % 12) / 3))
  {
    if month == 12 {
      assert (month % 12) / 3 == 0;
    }
  }

  /** `s.replace(/-/g, ' ')`. */
  function Dehyphen(s: string): (t: string)
    ensures |t| == |s|
    ensures forall i :: 0 <= i < |s| ==> t[i] == (if s[i] == '-' then ' ' else s[i])
  {
    seq(|s|, i requires 0 <= i < |s| => if s[i] == '-' then ' ' else s[i])
  }

  /** Position `i` of `t` starts a word, for the word characters `word`
      (what /\b\w/ matches when `word` is \w). */
  predicate StartsWord(t: string, i: nat, word: char -> bool)
    requires i < |t|
  {
    word(t[i]) && (i == 0 || !word(t[i - 1]))
  }

  /** `t.replace(pattern, c => c.toUpperCase())`, where the pattern matches a word character
      at the start of a word. */
  function Capitalize(t: string, word: char -> bool, up: char -> char): (r: string)
    ensures |r| == |t|
    ensures forall i :: 0 <= i < |t| ==> r[i] == (if StartsWord(t, i, word) then up(t[i]) else t[i])
  {
    seq(|t|, i requires 0 <= i < |t| => if StartsWord(t, i, word) then up(t[i]) else t[i])
  }

  /** Hyphens become spaces, which like hyphens are not word characters, so the word starts are
      those of the input: an upper-cased word start, every other character as it was. */
  lemma CapitalizeDehyphened(s: string, word: char -> bool, up: char -> char)
    requires !word('-') && !word(' ')
    requires forall c :: word(c) ==> word(up(c))
    ensures |Capitalize(Dehyphen(s), word, up)| == |s|
    ensures '-' !in Capitalize(Dehyphen(s), word, up)
    ensures forall i :: 0 <= i < |s| && s[i] == '-' ==> Capitalize(Dehyphen(s), word, up)[i] == ' '
    ensures forall i :: 0 <= i < |s| && StartsWord(s, i, word) ==> Capitalize(Dehyphen(s), word, up)[i] == up(s[i])
    ensures forall i :: 0 <= i < |s| && s[i] != '-' && !StartsWord(s, i, word) ==>
      Capitalize(Dehyphen(s), word, up)[i] == s[i]
  {
    var t := Dehyphen(s);
    var r := Capitalize(t, word, up);
    forall i | 0 <= i < |s| ensures StartsWord(t, i, word) <==> StartsWord(s, i, word) {
      assert word(t[i]) <==> word(s[i]);
      if i > 0 {
        assert word(t[i - 1]) <==> word(s[i - 1]);
      }
    }
    forall i | 0 <= i < |s| ensures r[i] != '-' {
      if StartsWord(t, i, word) {
        assert word(up(t[i]));
      }
    }
  }

  /** titleCase: hyphens become spaces and every ASCII word character that follows no ASCII
      word character is upper-cased; nothing else changes. */
  function TitleCase(s: string): (r: string)
    ensures |r| == |s| && '-' !in r
    ensures forall i :: 0 <= i < |s| && s[i] == '-' ==> r[i] == ' '
    ensures forall i :: 0 <= i < |s| && StartsWord(s, i, IsWordChar) ==> r[i] == UpperAscii(s[i])
    ensures forall i :: 0 <= i < |s| && s[i] != '-' && !StartsWord(s, i, IsWordChar) ==> r[i] == s[i]
  {
    CapitalizeDehyphened(s, IsWordChar, UpperAscii);
    Capitalize(Dehyphen(s), IsWordChar, UpperAscii)
  }

  /** Title-casing a title-cased string changes nothing. */
  lemma TitleCaseIdempotent(s: string)
    ensures TitleCase(TitleCase(s)) == TitleCase(s)
  {
    var r := TitleCase(s);
    forall i | 0 <= i < |s| ensures IsWordChar(r[i]) <==> IsWordChar(s[i]) {
    }
    forall i | 0 <= i < |s| ensures TitleCase(r)[i] == r[i] {
      if StartsWord(r, i, IsWordChar) {
        assert StartsWord(s, i, IsWordChar);
      }
    }
  }

  /** toUpperCase on the letters this model covers: ASCII a-z and the Latin-1 small letters
      U+00E0..U+00FE except the sign U+00F7. */
  function UpperLatin(c: char): (r: char)
    ensures IsLatinWordChar(r) <==> IsLatinWordChar(c)
    ensures !IsLatinWordChar(c) ==> r == c
  {
    if 'a' <= c <= 'z' then (c as int - 32) as char
    else if 0xE0 <= c as int <= 0xFE && c as int != 0xF7 then (c as int - 32) as char
    else c
  }

  /** A word character of Spanish text: \w plus the Latin-1 letters (U+00C0..U+00FF except
      the signs U+00D7 and U+00F7). */
  predicate IsLatinWordChar(c: char) {
    IsWordChar(c) || (0xC0 <= c as int <= 0xFF && c as int != 0xD7 && c as int != 0xF7)
  }

  /** Title-casing as evidently intended for city names: the same rule with the Latin letters
      counted as word characters. */
  function TitleCaseLatin(s: string): (r: string)
    ensures |r| == |s| && '-' !in r
    ensures forall i :: 0 <= i < |s| && s[i] == '-' ==> r[i] == ' '
    ensures forall i :: 0 <= i < |s| && StartsWord(s, i, IsLatinWordChar) ==> r[i] == UpperLatin(s[i])
    ensures forall i :: 0 <= i < |s| && s[i] != '-' && !StartsWord(s, i, IsLatinWordChar) ==> r[i] == s[i]
  {
    CapitalizeDehyphened(s, IsLatinWordChar, UpperLatin);
    Capitalize(Dehyphen(s), IsLatinWordChar, UpperLatin)
  }

  /** Corrected, a character after any letter, accented or not, is never changed, so a word is
      never split at an accent. */
  lemma TitleCaseLatinKeepsLetterAfterLetter(s: string, i: nat)
    requires 0 < i < |s| && s[i] != '-' && IsLatinWordChar(s[i - 1])
    ensures TitleCaseLatin(s)[i] == s[i]
  {
    assert !StartsWord(s, i, IsLatinWordChar);
  }

  /** As written, the ASCII-only \b splits a word at an accented letter: "viña" becomes "ViñA". */
  lemma TitleCaseSplitsAtAccent()
    ensures TitleCase("vi\U{f1}a") == "Vi\U{f1}A"
  {
    var s := "vi\U{f1}a";
    assert StartsWord(s, 3, IsWordChar);
    assert !StartsWord(s, 1, IsWordChar) && !StartsWord(s, 2, IsWordChar);
    assert TitleCase(s)[0] == 'V' && TitleCase(s)[3] == 'A';
  }

  /** The corrected function keeps the word whole: "viña" becomes "Viña". */
  lemma TitleCaseLatinKeepsWord()
    ensures TitleCaseLatin("vi\U{f1}a") == "Vi\U{f1}a"
  {
    var s := "vi\U{f1}a";
    assert StartsWord(s, 0, IsLatinWordChar);
    assert TitleCaseLatin(s)[0] == 'V';
  }
}
