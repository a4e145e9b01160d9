/** Locale tags as the library writes them in `.lproj` directory names: a
    language of two to four letters, an optional script or region variant of
    four letters or three digits, and an optional country of two letters or
    three digits, joined by `-` or `_` and normalised to `ll-Vvvv-CC`. */
module Locales {
  import opened JsValues

  // ------------------------------------------------------------ characters

  predicate IsLetter(c: char) {
    'A' <= c <= 'Z' || 'a' <= c <= 'z'
  }

  predicate IsDigit(c: char) {
    '0' <= c <= '9'
  }

  predicate IsSep(c: char) {
    c == '-' || c == '_'
  }

  predicate AllLetters(t: string) {
    forall i :: 0 <= i < |t| ==> IsLetter(t[i])
  }

  predicate AllDigits(t: string) {
    forall i :: 0 <= i < |t| ==> IsDigit(t[i])
  }

  /** `toLowerCase` on one ASCII character. */
  function LowerChar(c: char): char {
    if 'A' <= c <= 'Z' then (c as int + 32) as char else c
  }

  /** `toUpperCase` on one ASCII character. */
  function UpperChar(c: char): char {
    if 'a' <= c <= 'z' then (c as int - 32) as char else c
  }

  function Lower(t: string): (r: string)
    ensures |r| == |t| && forall i :: 0 <= i < |t| ==> r[i] == LowerChar(t[i])
  {
    seq(|t|, i requires 0 <= i < |t| => LowerChar(t[i]))
  }

  function Upper(t: string): (r: string)
    ensures |r| == |t| && forall i :: 0 <= i < |t| ==> r[i] == UpperChar(t[i])
  {
    seq(|t|, i requires 0 <= i < |t| => UpperChar(t[i]))
  }

  /** The first character upper-cased and the rest lower-cased. */
  function Title(t: string): (r: string)
    ensures |r| == |t|
  {
    if t == [] then [] else [UpperChar(t[0])] + Lower(t[1..])
  }

  /** The length of the longest run of ASCII letters at the start of `s`. */
  function LetterRun(s: string): (n: nat)
    ensures n <= |s| && AllLetters(s[..n]) && (n == |s| || !IsLetter(s[n]))
  {
    if s == [] || !IsLetter(s[0]) then 0
    else
      var n := 1 + LetterRun(s[1..]);
      assert forall i :: 1 <= i < n ==> s[..n][i] == s[1..][..n - 1][i - 1];
      n
  }

  // ---------------------------------------------------------------- locales

  /** The three named groups of the locale regular expression. */
  datatype Locale = Locale(lang: string, variant: Option<string>, country: Option<string>)

  /** `[A-Za-z]{2,4}` */
  predicate IsLang(t: string) {
    2 <= |t| <= 4 && AllLetters(t)
  }

  /** `[A-Za-z]{4}|\d{3}` */
  predicate IsVariant(t: string) {
    (|t| == 4 && AllLetters(t)) || (|t| == 3 && AllDigits(t))
  }

  /** `[A-Za-z]{2}|\d{3}` */
  predicate IsCountry(t: string) {
    (|t| == 2 && AllLetters(t)) || (|t| == 3 && AllDigits(t))
  }

  predicate WellFormed(l: Locale) {
    && IsLang(l.lang)
    && (l.variant.Some? ==> IsVariant(l.variant.value))
    && (l.country.Some? ==> IsCountry(l.country.value))
  }

  /** A locale written out with the given separators before the variant and
      before the country. */
  function Spell(l: Locale, sep1: char, sep2: char): string {
    l.lang
    + (if l.variant.Some? then [sep1] + l.variant.value else [])
    + (if l.country.Some? then [sep2] + l.country.value else [])
  }

  /** The normalised spelling: language lower case, variant title case,
      country upper case, joined by `-`. */
  function Canonical(l: Locale): string {
    Lower(l.lang)
    + (if l.variant.Some? then "-" + Title(l.variant.value) else [])
    + (if l.country.Some? then "-" + Upper(l.country.value) else [])
  }

  // ----------------------------------------------------------------- parser

  /** What the regular expression captures, with the separators it consumed
      (`-` where a group is absent). */
  datatype Parsed = Parsed(locale: Locale, sep1: char, sep2: char)

  /** The optional country group followed by the end of input. */
  function ParseCountry(t: string): Option<(Option<string>, char)> {
    if t == [] then Some((None, '-'))
    else if IsSep(t[0]) && IsCountry(t[1..]) then Some((Some(t[1..]), t[0]))
    else None
  }

  /** The length of the variant the group would take at `r[1..]`: four
      letters, else three digits, else none. */
  function VariantLength(r: string): nat {
    if |r| >= 5 && IsSep(r[0]) && AllLetters(r[1..5]) then 4
    else if |r| >= 4 && IsSep(r[0]) && AllDigits(r[1..4]) then 3
    else 0
  }

  /** The regular expression of normalizeLocale run by backtracking: the
      language takes the whole letter run (a shorter one leaves a letter where
      a separator or the end must follow). */
  function Parse(s: string): Option<Parsed> {
    var n := LetterRun(s);
    if n < 2 || n > 4 then None else ParseTail(s[..n], s[n..])
  }

  /** The rest after the language: the variant group is tried first and is
      dropped only when the rest cannot match with it. */
  function ParseTail(lang: string, r: string): Option<Parsed> {
    var v := VariantLength(r);
    if v > 0 && ParseCountry(r[v + 1..]).Some? then
      var c := ParseCountry(r[v + 1..]).value;
      Some(Parsed(Locale(lang, Some(r[1..v + 1]), c.0), r[0], c.1))
    else if ParseCountry(r).Some? then
      var c := ParseCountry(r).value;
      Some(Parsed(Locale(lang, None, c.0), '-', c.1))
    else None
  }

  /** normalizeLocale: a TypeError when the string is not a locale. */
  function NormalizeLocale(s: string): (r: Result<string>)
    ensures r.Err? ==> r.error.kind == TypeError
    ensures r.Err? <==> Parse(s).None?
  {
    match Parse(s)
    case None => Err(Exception(TypeError, s))
    case Some(p) => Ok(Canonical(p.locale))
  }

  // ----------------------------------------------------------------- lemmas

  /** Whatever the parser accepts is a well-formed locale spelled out with
      its separators. */
  lemma ParseSound(s: string)
    requires Parse(s).Some?
    ensures var p := Parse(s).value;
            WellFormed(p.locale) && IsSep(p.sep1) && IsSep(p.sep2) && Spell(p.locale, p.sep1, p.sep2) == s
  {
    var n := LetterRun(s);
    assert s == s[..n] + s[n..];
    ParseTailSound(s[..n], s[n..]);
  }

  lemma ParseTailSound(lang: string, r: string)
    requires ParseTail(lang, r).Some?
    ensures var p := ParseTail(lang, r).value;
            && p.locale.lang == lang
            && (p.locale.variant.Some? ==> IsVariant(p.locale.variant.value))
            && (p.locale.country.Some? ==> IsCountry(p.locale.country.value))
            && IsSep(p.sep1) && IsSep(p.sep2) && Spell(p.locale, p.sep1, p.sep2) == lang + r
  {
    var v := VariantLength(r);
    var p := ParseTail(lang, r).value;
    if v > 0 && ParseCountry(r[v + 1..]).Some? {
      VariantSound(r);
      CountrySound(r[v + 1..]);
      var c := ParseCountry(r[v + 1..]).value;
      var x := [r[0]] + r[1..v + 1];
      var y := if c.0.Some? then [c.1] + c.0.value else [];
      assert p == Parsed(Locale(lang, Some(r[1..v + 1]), c.0), r[0], c.1);
      assert r == x + y;
      SpellParts(lang, Some(r[1..v + 1]), c.0, r[0], c.1, r);
    } else {
      CountrySound(r);
      var c := ParseCountry(r).value;
      assert p == Parsed(Locale(lang, None, c.0), '-', c.1);
      SpellParts(lang, None, c.0, '-', c.1, r);
    }
  }

  lemma SpellParts(lang: string, variant: Option<string>, country: Option<string>, sep1: char, sep2: char, r: string)
    requires r == (if variant.Some? then [sep1] + variant.value else [])
                + (if country.Some? then [sep2] + country.value else [])
    ensures Spell(Locale(lang, variant, country), sep1, sep2) == lang + r
  {
  }

  lemma VariantSound(r: string)
    requires VariantLength(r) > 0
    ensures IsSep(r[0]) && IsVariant(r[1..VariantLength(r) + 1])
  {
  }

  /** The country group spells out the rest it matched. */
  lemma CountrySound(t: string)
    requires ParseCountry(t).Some?
    ensures var c := ParseCountry(t).value;
            && (c.0.Some? ==> IsCountry(c.0.value))
            && IsSep(c.1)
            && (if c.0.Some? then [c.1] + c.0.value else []) == t
  {
    if t != [] {
      assert t == [t[0]] + t[1..];
    }
  }

  lemma {:induction false} LetterRunOf(p: string, q: string)
    requires AllLetters(p)
    requires q == [] || !IsLetter(q[0])
    ensures LetterRun(p + q) == |p|
    decreases |p|
  {
    if p != [] {
      assert (p + q)[1..] == p[1..] + q;
      LetterRunOf(p[1..], q);
    } else {
      assert p + q == q;
    }
  }

  /** The part of a spelling after the language. */
  function SpellTail(l: Locale, sep1: char, sep2: char): string {
    (if l.variant.Some? then [sep1] + l.variant.value else [])
    + (if l.country.Some? then [sep2] + l.country.value else [])
  }

  lemma ParseOfSpelling(l: Locale, sep1: char, sep2: char)
    requires WellFormed(l) && IsSep(sep1) && IsSep(sep2)
    ensures Parse(Spell(l, sep1, sep2)) == ParseTail(l.lang, SpellTail(l, sep1, sep2))
  {
    var s := Spell(l, sep1, sep2);
    var r := SpellTail(l, sep1, sep2);
    assert s == l.lang + r;
    assert r == [] || IsSep(r[0]);
    LetterRunOf(l.lang, r);
    assert s[..|l.lang|] == l.lang && s[|l.lang|..] == r;
  }

  lemma TailWithVariant(l: Locale, sep1: char, sep2: char)
    requires WellFormed(l) && IsSep(sep1) && IsSep(sep2) && l.variant.Some?
    ensures ParseTail(l.lang, SpellTail(l, sep1, sep2)).Some?
    ensures ParseTail(l.lang, SpellTail(l, sep1, sep2)).value.locale == l
  {
    var v := l.variant.value;
    var cpart := if l.country.Some? then [sep2] + l.country.value else [];
    var r := SpellTail(l, sep1, sep2);
    assert r == [sep1] + v + cpart;
    assert r[1..|v| + 1] == v;
    assert r[|v| + 1..] == cpart;
    if |v| == 4 {
      assert r[1..5] == v;
    } else {
      assert !IsLetter(r[1]) by { assert r[1] == v[0]; }
      assert r[1..4] == v;
    }
    assert VariantLength(r) == |v|;
    if l.country.Some? {
      assert cpart[1..] == l.country.value;
    }
  }

  lemma TailWithoutVariant(l: Locale, sep1: char, sep2: char)
    requires WellFormed(l) && IsSep(sep1) && IsSep(sep2) && l.variant.None?
    ensures ParseTail(l.lang, SpellTail(l, sep1, sep2)).Some?
    ensures Canonical(ParseTail(l.lang, SpellTail(l, sep1, sep2)).value.locale) == Canonical(l)
  {
    var r := SpellTail(l, sep1, sep2);
    if l.country.Some? {
      var c := l.country.value;
      assert r == [sep2] + c && r[1..] == c;
      if |c| == 3 {
        assert r[1..4] == c;
        assert VariantLength(r) == 3;
        assert r[4..] == [];
        assert Title(c) == Upper(c) by {
          TitleKeepsClasses(c);
          CaseMapsKeepClasses(c);
        }
        assert ParseTail(l.lang, r).value.locale == Locale(l.lang, Some(c), None);
      } else {
        assert VariantLength(r) == 0;
      }
    } else {
      assert r == [];
    }
  }

  /** Every well-formed locale, with any separators, is accepted, and what is
      captured normalises to the same spelling. The one ambiguity, a
      three-digit group with no variant before it, is captured as a variant,
      which normalises alike. */
  lemma {:induction false} ParseComplete(l: Locale, sep1: char, sep2: char)
    requires WellFormed(l) && IsSep(sep1) && IsSep(sep2)
    ensures Parse(Spell(l, sep1, sep2)).Some?
    ensures Canonical(Parse(Spell(l, sep1, sep2)).value.locale) == Canonical(l)
  {
    ParseOfSpelling(l, sep1, sep2);
    if l.variant.Some? {
      TailWithVariant(l, sep1, sep2);
    } else {
      TailWithoutVariant(l, sep1, sep2);
    }
  }

  /** The normalisation of any spelling of a well-formed locale. */
  lemma {:induction false} NormalizeSpelled(l: Locale, sep1: char, sep2: char)
    requires WellFormed(l) && IsSep(sep1) && IsSep(sep2)
    ensures NormalizeLocale(Spell(l, sep1, sep2)) == Ok(Canonical(l))
  {
    ParseComplete(l, sep1, sep2);
  }

  /** The locale in normalised case. */
  function CanonicalParts(l: Locale): Locale {
    Locale(Lower(l.lang),
           if l.variant.Some? then Some(Title(l.variant.value)) else None,
           if l.country.Some? then Some(Upper(l.country.value)) else None)
  }

  lemma CaseMapChars(c: char)
    ensures IsLetter(c) ==> IsLetter(LowerChar(c)) && IsLetter(UpperChar(c))
    ensures IsDigit(c) ==> LowerChar(c) == c && UpperChar(c) == c
    ensures LowerChar(LowerChar(c)) == LowerChar(c) && UpperChar(UpperChar(c)) == UpperChar(c)
    ensures c != '_' ==> LowerChar(c) != '_' && UpperChar(c) != '_'
  {
  }

  lemma CaseMapsKeepClasses(t: string)
    ensures AllLetters(t) ==> AllLetters(Lower(t)) && AllLetters(Upper(t))
    ensures AllDigits(t) ==> Lower(t) == t && Upper(t) == t
    ensures Lower(Lower(t)) == Lower(t) && Upper(Upper(t)) == Upper(t)
  {
    forall i | 0 <= i < |t| ensures
      && (IsLetter(t[i]) ==> IsLetter(Lower(t)[i]) && IsLetter(Upper(t)[i]))
      && (IsDigit(t[i]) ==> Lower(t)[i] == t[i] && Upper(t)[i] == t[i])
      && Lower(Lower(t))[i] == Lower(t)[i] && Upper(Upper(t))[i] == Upper(t)[i]
    {
      CaseMapChars(t[i]);
    }
  }

  lemma TitleKeepsClasses(t: string)
    ensures AllLetters(t) ==> AllLetters(Title(t))
    ensures AllDigits(t) ==> Title(t) == t
    ensures Title(Title(t)) == Title(t)
  {
    if t != [] {
      CaseMapChars(t[0]);
      CaseMapsKeepClasses(t[1..]);
      assert Title(t)[1..] == Lower(t[1..]);
      if AllDigits(t) {
        assert AllDigits(t[1..]) by {
          forall i | 0 <= i < |t[1..]| ensures IsDigit(t[1..][i]) { assert t[1..][i] == t[i + 1]; }
        }
        assert Title(t) == [t[0]] + t[1..];
      }
      if AllLetters(t) {
        assert AllLetters(t[1..]) by {
          forall i | 0 <= i < |t[1..]| ensures IsLetter(t[1..][i]) { assert t[1..][i] == t[i + 1]; }
        }
      }
    }
  }

  /** A normalised locale is spelled by itself, and normalising it changes
      nothing. */
  lemma {:induction false} CanonicalFixpoint(l: Locale)
    requires WellFormed(l)
    ensures NormalizeLocale(Canonical(l)) == Ok(Canonical(l))
  {
    var k := CanonicalParts(l);
    CaseMapsKeepClasses(l.lang);
    if l.variant.Some? { TitleKeepsClasses(l.variant.value); }
    if l.country.Some? { CaseMapsKeepClasses(l.country.value); }
    assert WellFormed(k);
    assert Spell(k, '-', '-') == Canonical(l);
    assert Canonical(k) == Canonical(l);
    NormalizeSpelled(k, '-', '-');
  }

  /** normalizeLocale is idempotent. */
  lemma {:induction false} NormalizeIdempotent(s: string)
    requires NormalizeLocale(s).Ok?
    ensures NormalizeLocale(NormalizeLocale(s).value) == NormalizeLocale(s)
  {
    ParseSound(s);
    CanonicalFixpoint(Parse(s).value.locale);
  }

  lemma NoUnderscoreIn(t: string)
    requires AllLetters(t) || AllDigits(t)
    ensures '_' !in t
  {
  }

  /** A normalised locale uses `-` and never `_`. */
  lemma NormalizedHasNoUnderscore(s: string)
    requires NormalizeLocale(s).Ok?
    ensures '_' !in NormalizeLocale(s).value
  {
    ParseSound(s);
    CanonicalNoUnderscore(Parse(s).value.locale);
  }

  lemma CanonicalNoUnderscore(l: Locale)
    requires WellFormed(l)
    ensures '_' !in Canonical(l)
  {
    var v := if l.variant.Some? then "-" + Title(l.variant.value) else [];
    var c := if l.country.Some? then "-" + Upper(l.country.value) else [];
    CaseMapsKeepClasses(l.lang);
    NoUnderscoreIn(Lower(l.lang));
    if l.variant.Some? {
      TitleKeepsClasses(l.variant.value);
      NoUnderscoreIn(Title(l.variant.value));
    }
    if l.country.Some? {
      CaseMapsKeepClasses(l.country.value);
      NoUnderscoreIn(Upper(l.country.value));
    }
    assert '_' !in v && '_' !in c;
    assert Canonical(l) == Lower(l.lang) + v + c;
  }
}
