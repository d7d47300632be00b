// Translation helpers (i18n.js): the language-code normalisation, the
// choice of language at start-up, the `{{name}}` placeholder
// substitution, the dotted-key lookup `t`, the 12-hour translation cache
// and the X.Y.Z version bump.
module I18n {
  import opened Js

  // ---------------------------------------------------------------------
  // Languages.

  /** The base codes answered in Russian. */
  const PostSoviet: set<string> := {"ru", "uk", "be", "kk", "ky", "uz", "tg", "az", "hy", "ro"}

  /** toLowerCase on the ASCII letters. */
  function Lower(s: string): (r: string)
    ensures |r| == |s|
    ensures forall i :: 0 <= i < |s| ==> r[i] == (if 'A' <= s[i] <= 'Z' then (s[i] as int + 32) as char else s[i])
  {
    if s == [] then []
    else [if 'A' <= s[0] <= 'Z' then (s[0] as int + 32) as char else s[0]] + Lower(s[1..])
  }

  /** `languageCode.toLowerCase().split('-')[0]`. */
  function BaseCode(code: string): string
  {
    Split(Lower(code), '-')[0]
  }

  /** normalizeLanguageCode: 'en' for a falsy code; 'ru' for a base code of the group; 'en' otherwise. */
  function NormalizeLanguageCode(code: Option<string>): (r: string)
    ensures r == "ru" || r == "en"
  {
    if !Truthy(code) then "en"
    else if BaseCode(code.value) in PostSoviet then "ru"
    else "en"
  }

  /**
   * The answer is 'ru' exactly for a present, non-empty code whose
   * lower-cased part before the first '-' is one of the ten, and a
   * normalised code normalises to itself.
   */
  lemma NormalizeCharacterised(code: Option<string>)
    ensures NormalizeLanguageCode(code) == "ru" <==> Truthy(code) && BaseCode(code.value) in PostSoviet
    ensures NormalizeLanguageCode(Some(NormalizeLanguageCode(code))) == NormalizeLanguageCode(code)
  {
    NormalizedFixed();
  }

  /** 'ru' and 'en' are their own normal forms. */
  lemma NormalizedFixed()
    ensures NormalizeLanguageCode(Some("ru")) == "ru" && NormalizeLanguageCode(Some("en")) == "en"
  {
    LowerCaseBase("ru");
    LowerCaseBase("en");
    assert "en" !in PostSoviet;
  }

  /** A two-letter lower-case code is its own base code. */
  lemma LowerCaseBase(c: string)
    requires |c| == 2 && 'a' <= c[0] <= 'z' && 'a' <= c[1] <= 'z'
    ensures BaseCode(c) == c
  {
    assert Lower(c) == c;
    SplitFree(c, '-');
  }

  lemma {:induction false} LowerAppend(a: string, b: string)
    ensures Lower(a + b) == Lower(a) + Lower(b)
    decreases |a|
  {
    if a == [] {
      assert a + b == b;
    } else {
      assert (a + b)[0] == a[0] && (a + b)[1..] == a[1..] + b;
      LowerAppend(a[1..], b);
    }
  }

  /** The region after the first '-' does not matter: "ru-RU" is "ru", "de-AT" is "de". */
  lemma RegionIgnored(base: string, region: string)
    ensures NormalizeLanguageCode(Some(base + "-" + region)) == NormalizeLanguageCode(Some(base))
  {
    var code := base + "-" + region;
    LowerAppend(base + "-", region);
    LowerAppend(base, "-");
    assert Lower("-") == ['-'];
    assert Lower(code) == Lower(base) + ['-'] + Lower(region);
    SplitHead(Lower(base), Lower(region), '-');
    assert BaseCode(code) == BaseCode(base);
    if base == "" {
      assert Lower(base) == "";
      assert BaseCode(base) == "";
    }
  }

  /** Letter case does not matter: "UK" is "uk". */
  lemma CaseIgnored(code: string)
    ensures NormalizeLanguageCode(Some(Lower(code))) == NormalizeLanguageCode(Some(code))
  {
    LowerTwice(code);
  }

  lemma {:induction false} LowerTwice(s: string)
    ensures Lower(Lower(s)) == Lower(s)
  {
    if s != [] {
      var l := Lower(s);
      assert l[1..] == Lower(s[1..]);
      LowerTwice(s[1..]);
    }
  }

  /**
   * The language initI18n settles on: `languageCode || saved || 'en'`,
   * normalised. It also returns what localStorage then holds under
   * giftgo_user_language and giftgo_original_language.
   */
  function ChooseLanguage(languageCode: Option<string>, saved: Option<string>, original: Option<string>)
    : (r: (string, Option<string>, Option<string>))
  {
    var lang := NormalizeLanguageCode(Or(languageCode, Or(saved, Some("en"))));
    (lang, Some(lang), if Truthy(languageCode) then languageCode else original)
  }

  /**
   * A code from Telegram wins over the saved language; without one the
   * saved language is used; and what is saved chooses itself again on
   * the next start without a code.
   */
  lemma LanguageSticks(languageCode: Option<string>, saved: Option<string>, original: Option<string>)
    ensures Truthy(languageCode) ==> ChooseLanguage(languageCode, saved, original).0 == NormalizeLanguageCode(languageCode)
    ensures !Truthy(languageCode) && Truthy(saved) ==> ChooseLanguage(languageCode, saved, original).0 == NormalizeLanguageCode(saved)
    ensures !Truthy(languageCode) && !Truthy(saved) ==> ChooseLanguage(languageCode, saved, original).0 == "en"
    ensures var c := ChooseLanguage(languageCode, saved, original); ChooseLanguage(None, c.1, original).0 == c.0
  {
    NormalizedFixed();
    if !Truthy(languageCode) && !Truthy(saved) {
      assert Or(languageCode, Or(saved, Some("en"))) == Some("en");
    }
    var lang := ChooseLanguage(languageCode, saved, original).0;
    assert Or(None, Or(Some(lang), Some("en"))) == Some(lang);
  }

  // ---------------------------------------------------------------------
  // Placeholders: text.replace(/\{\{(\w+)\}\}/g, ...).

  /** The longest prefix of word characters. */
  function WordRun(s: string): (w: string)
    ensures |w| <= |s| && w == s[..|w|]
    ensures forall i :: 0 <= i < |w| ==> IsWordChar(w[i])
    ensures |w| < |s| ==> !IsWordChar(s[|w|])
  {
    if s != [] && IsWordChar(s[0]) then [s[0]] + WordRun(s[1..]) else []
  }

  /** A placeholder at the start of `s`: its name and the length of the match. */
  function MatchAt(s: string): (m: Option<(string, nat)>)
    ensures m.Some? ==> 5 <= m.value.1 == |m.value.0| + 4 <= |s|
  {
    if !StartsWith(s, "{{") then None
    else
      var w := WordRun(s[2..]);
      if w != [] && StartsWith(s[2 + |w|..], "}}") then Some((w, |w| + 4)) else None
  }

  /**
   * replacePlaceholders: scanning left to right, each `{{name}}` becomes
   * the value of `name` when it has one and stays as it is otherwise.
   */
  function ReplacePlaceholders(text: string, values: map<string, string>): string
    decreases |text|
  {
    if text == [] then []
    else
      match MatchAt(text)
      case Some((name, len)) =>
        (if name in values then values[name] else text[..len]) + ReplacePlaceholders(text[len..], values)
      case None => [text[0]] + ReplacePlaceholders(text[1..], values)
  }

  /** A placeholder at the start of the text is `{{name}}` spelled out. */
  lemma MatchSpelled(text: string)
    requires MatchAt(text).Some?
    ensures var (name, len) := MatchAt(text).value; text[..len] == "{{" + name + "}}"
  {
    var (name, len) := MatchAt(text).value;
    assert text[..2] == "{{";
    assert text[2..2 + |name|] == name;
    assert text[2 + |name|..len] == "}}";
    assert text[..len] == text[..2] + text[2..2 + |name|] + text[2 + |name|..len];
  }

  /** A placeholder with no value, or no placeholder at all, leaves the text as it is. */
  lemma {:induction false} UnknownPlaceholdersKept(text: string, values: map<string, string>)
    requires forall name :: name in values ==> !Mentions(text, name)
    ensures ReplacePlaceholders(text, values) == text
    decreases |text|
  {
    if text != [] {
      var len := KeptPrefix(text, values);
      NoMentionsAfter(text, len, values);
      UnknownPlaceholdersKept(text[len..], values);
      PrefixAndRestKept(text, len, ReplacePlaceholders(text, values), ReplacePlaceholders(text[len..], values));
    }
  }

  lemma PrefixAndRestKept(text: string, len: nat, whole: string, rest: string)
    requires len <= |text| && whole == text[..len] + rest && rest == text[len..]
    ensures whole == text
  {
    assert text == text[..len] + text[len..];
  }

  /** One step of the scan over a text without known placeholders copies a prefix unchanged. */
  lemma KeptPrefix(text: string, values: map<string, string>) returns (len: nat)
    requires text != []
    requires forall name :: name in values ==> !Mentions(text, name)
    ensures 1 <= len <= |text|
    ensures ReplacePlaceholders(text, values) == text[..len] + ReplacePlaceholders(text[len..], values)
  {
    var m := MatchAt(text);
    if m.Some? {
      len := m.value.1;
      MatchSpelled(text);
      assert MentionAt(text, m.value.0, 0);
    } else {
      len := 1;
    }
  }

  lemma NoMentionsAfter(text: string, k: nat, values: map<string, string>)
    requires k <= |text|
    requires forall name :: name in values ==> !Mentions(text, name)
    ensures forall name :: name in values ==> !Mentions(text[k..], name)
  {
    forall name | name in values
      ensures !Mentions(text[k..], name)
    {
      MentionsShift(text, k, name);
    }
  }

  /** `{{name}}` occurs at position i of the text. */
  predicate MentionAt(text: string, name: string, i: nat)
  {
    i + |name| + 4 <= |text| && text[i..i + |name| + 4] == "{{" + name + "}}"
  }

  /** `{{name}}` occurs somewhere in the text. */
  ghost predicate Mentions(text: string, name: string)
  {
    exists i: nat :: MentionAt(text, name, i)
  }

  lemma MentionsShift(text: string, k: nat, name: string)
    requires k <= |text|
    ensures Mentions(text[k..], name) ==> Mentions(text, name)
  {
    if Mentions(text[k..], name) {
      var i: nat :| MentionAt(text[k..], name, i);
      assert text[k + i..k + i + |name| + 4] == text[k..][i..i + |name| + 4];
      assert MentionAt(text, name, k + i);
    }
  }

  /**
   * A placeholder in any context is replaced on its own: `{{name}}` becomes
   * the value of `name` when it has one and stays verbatim otherwise, and
   * the text before and after it is scanned as if it stood alone (no
   * placeholder can run across the `{{` that opens this one).
   */
  lemma PlaceholderReplaced(before: string, name: string, after: string, values: map<string, string>)
    requires name != [] && forall i :: 0 <= i < |name| ==> IsWordChar(name[i])
    ensures ReplacePlaceholders(before + "{{" + name + "}}" + after, values)
            == ReplacePlaceholders(before, values)
               + (if name in values then values[name] else "{{" + name + "}}")
               + ReplacePlaceholders(after, values)
  {
    var tail := "{{" + name + "}}" + after;
    var piece := if name in values then values[name] else "{{" + name + "}}";
    TokenSplit(before, name, after, tail);
    ScanBeforeBrace(before, tail, values);
    PlaceholderFirst(name, after, values);
    ConcatAssoc(ReplacePlaceholders(before, values), piece, ReplacePlaceholders(after, values));
  }

  lemma TokenSplit(before: string, name: string, after: string, tail: string)
    requires tail == "{{" + name + "}}" + after
    ensures before + "{{" + name + "}}" + after == before + tail
  {
  }

  /** The scan of a text followed by `{{` ends exactly where that text does. */
  lemma {:induction false} ScanBeforeBrace(before: string, tail: string, values: map<string, string>)
    requires |tail| >= 2 && tail[0] == '{' && tail[1] == '{'
    ensures ReplacePlaceholders(before + tail, values) == ReplacePlaceholders(before, values) + ReplacePlaceholders(tail, values)
    decreases |before|
  {
    if before == [] {
      assert before + tail == tail;
    } else {
      var text := before + tail;
      StepBeforeBrace(before, tail, values);
      var len := StepLength(before);
      var rest := before[len..];
      ScanStep(before, values);
      ScanStep(text, values);
      ScanBeforeBrace(rest, tail, values);
      ConcatAssoc(StepOutput(before, values), ReplacePlaceholders(rest, values), ReplacePlaceholders(tail, values));
    }
  }

  lemma ConcatAssoc(a: string, b: string, c: string)
    ensures a + (b + c) == (a + b) + c
  {
  }

  /** How much of the text one step of the scan consumes. */
  function StepLength(text: string): nat
  {
    if MatchAt(text).Some? then MatchAt(text).value.1 else 1
  }

  /** What one step of the scan writes. */
  function StepOutput(text: string, values: map<string, string>): string
    requires text != []
  {
    match MatchAt(text)
    case Some((name, len)) => if name in values then values[name] else text[..len]
    case None => [text[0]]
  }

  /** One step of the scan: the replacement of the first match, or the first character, then the scan of the rest. */
  lemma ScanStep(text: string, values: map<string, string>)
    requires text != []
    ensures 1 <= StepLength(text) <= |text|
    ensures ReplacePlaceholders(text, values) == StepOutput(text, values) + ReplacePlaceholders(text[StepLength(text)..], values)
  {
  }

  /** The first step of the scan over a text followed by `{{` is the first step over that text alone. */
  lemma StepBeforeBrace(before: string, tail: string, values: map<string, string>)
    requires before != [] && |tail| >= 2 && tail[0] == '{' && tail[1] == '{'
    ensures StepLength(before + tail) == StepLength(before) <= |before|
    ensures StepOutput(before + tail, values) == StepOutput(before, values)
    ensures (before + tail)[StepLength(before)..] == before[StepLength(before)..] + tail
  {
    var text := before + tail;
    MatchBeforeBrace(before, tail);
    var len := StepLength(before);
    assert text[..len] == before[..len];
    assert text[len..] == before[len..] + tail;
  }

  /** A text that opens with `{{name}}` has it replaced, then the rest scanned. */
  lemma PlaceholderFirst(name: string, after: string, values: map<string, string>)
    requires name != [] && forall i :: 0 <= i < |name| ==> IsWordChar(name[i])
    ensures ReplacePlaceholders("{{" + name + "}}" + after, values)
            == (if name in values then values[name] else "{{" + name + "}}") + ReplacePlaceholders(after, values)
  {
    var text := "{{" + name + "}}" + after;
    var len := |name| + 4;
    assert text[2..] == name + ("}}" + after);
    WordRunStops(name, "}}" + after);
    assert text[2 + |name|..] == "}}" + after;
    assert text[..len] == "{{" + name + "}}";
    assert text[len..] == after;
  }

  /**
   * A placeholder at the start of a non-empty text is found the same way
   * when `{{` follows the text: that `{` can neither extend a name nor
   * close a placeholder.
   */
  lemma MatchBeforeBrace(s: string, rest: string)
    requires s != [] && |rest| >= 2 && rest[0] == '{' && rest[1] == '{'
    ensures MatchAt(s + rest) == MatchAt(s)
  {
    var t := s + rest;
    if |s| == 1 {
      if StartsWith(t, "{{") {
        assert t[2..] == rest[1..];
        assert WordRun(t[2..]) == [];
      }
    } else {
      assert t[..2] == s[..2];
      if StartsWith(s, "{{") {
        assert t[2..] == s[2..] + rest;
        WordRunAppend(s[2..], rest);
        var w := WordRun(s[2..]);
        assert t[2 + |w|..] == s[2 + |w|..] + rest;
        CloseBeforeBrace(s[2 + |w|..], rest);
      }
    }
  }

  /** A `}}` starts a text followed by `{` only if it starts the text itself. */
  lemma CloseBeforeBrace(u: string, rest: string)
    requires rest != [] && rest[0] == '{'
    ensures StartsWith(u + rest, "}}") == StartsWith(u, "}}")
  {
    if |u| >= 2 {
      assert (u + rest)[..2] == u[..2];
    } else if |u| == 1 {
      assert (u + rest)[1] == '{';
    } else {
      assert u + rest == rest;
    }
  }

  /** The word run of a text is unchanged by appending text that starts with a non-word character. */
  lemma {:induction false} WordRunAppend(s: string, rest: string)
    requires rest != [] && !IsWordChar(rest[0])
    ensures WordRun(s + rest) == WordRun(s)
    decreases |s|
  {
    if s != [] {
      assert (s + rest)[0] == s[0];
      if IsWordChar(s[0]) {
        WordRunAppend(s[1..], rest);
        assert (s + rest)[1..] == s[1..] + rest;
      }
    } else {
      assert s + rest == rest;
    }
  }

  lemma {:induction false} WordRunStops(w: string, rest: string)
    requires forall i :: 0 <= i < |w| ==> IsWordChar(w[i])
    requires rest != [] && !IsWordChar(rest[0])
    ensures WordRun(w + rest) == w
    decreases |w|
  {
    if w != [] {
      WordRunStops(w[1..], rest);
      assert (w + rest)[1..] == w[1..] + rest;
    } else {
      assert w + rest == rest;
    }
  }

  // ---------------------------------------------------------------------
  // t(key, placeholders).

  /**
   * A value of a translation file: a string, an object, or anything else
   * (a number, a boolean, null or an array, with its truthiness).
   */
  datatype Json = JStr(s: string) | JObj(fields: map<string, Json>) | JOther(truthy: bool)

  predicate JsonTruthy(v: Json)
  {
    match v
    case JStr(s) => s != ""
    case JObj(_) => true
    case JOther(b) => b
  }

  /** `key` is a canonical array index below n ("0", "1", ..., no leading zero). */
  predicate IsIndex(key: string, n: nat)
  {
    key != [] && AllDigits(key) && (key[0] == '0' ==> key == "0") && DigitsValue(key, 10) < n
  }

  /**
   * `v[key]`, None for undefined: an object's own field; a string's
   * character at an index, or its length; nothing on other values.
   */
  function Prop(v: Json, key: string): Option<Json>
  {
    match v
    case JObj(m) => if key in m then Some(m[key]) else None
    case JStr(s) =>
      if key == "length" then Some(JOther(s != ""))
      else if IsIndex(key, |s|) then Some(JStr([s[DigitsValue(key, 10)]]))
      else None
    case JOther(_) => None
  }

  /**
   * The loop over the parts of a key of three or more: step down one part
   * at a time; an undefined step gives undefined; stop at the last part or
   * at the first string.
   */
  function Walk(current: Json, parts: seq<string>, i: nat): Option<Json>
    requires i < |parts|
    decreases |parts| - i
  {
    match Prop(current, parts[i])
    case None => None
    case Some(v) => if i == |parts| - 1 || v.JStr? then Some(v) else Walk(v, parts, i + 1)
  }

  /** The value a key of two or more parts names in the loaded translations; None when undefined. */
  function Lookup(tr: map<string, Json>, parts: seq<string>): Option<Json>
    requires |parts| >= 2
  {
    if |parts| == 2 then
      match Prop(JObj(tr), parts[0])
      case None => None
      case Some(section) => if !JsonTruthy(section) then None else Prop(section, parts[1])
    else Walk(JObj(tr), parts, 0)
  }

  /** `placeholders.defaultValue || key`. */
  function Fallback(placeholders: map<string, string>, key: string): string
  {
    if "defaultValue" in placeholders && placeholders["defaultValue"] != "" then placeholders["defaultValue"] else key
  }

  /**
   * t(key, placeholders) with the current language's translations (None
   * when not loaded): the fallback when nothing is loaded, the key has
   * fewer than two parts or names nothing; otherwise the value, with
   * placeholders replaced when any are given (replacing in a value that is
   * not a string throws).
   */
  function Translate(tr: Option<map<string, Json>>, key: string, placeholders: map<string, string>): Result<Json>
  {
    var fallback := JStr(Fallback(placeholders, key));
    var parts := Split(key, '.');
    if tr.None? || |parts| < 2 then Ok(fallback)
    else
      match Lookup(tr.value, parts)
      case None => Ok(fallback)
      case Some(v) =>
        if |placeholders| == 0 then Ok(v)
        else if v.JStr? then Ok(JStr(ReplacePlaceholders(v.s, placeholders)))
        else Throws(TypeError)
  }

  const TypeError := "TypeError"

  /** t(key, placeholders). */
  method T(tr: Option<map<string, Json>>, key: string, placeholders: map<string, string>) returns (r: Result<Json>)
    ensures r == Translate(tr, key, placeholders)
  {
    var fallback := JStr(Fallback(placeholders, key));
    if tr.None? {
      return Ok(fallback);
    }
    var parts := Split(key, '.');
    if |parts| < 2 {
      return Ok(fallback);
    }
    var result: Option<Json>;
    if |parts| == 2 {
      var sectionData := Prop(JObj(tr.value), parts[0]);
      if sectionData.None? || !JsonTruthy(sectionData.value) {
        return Ok(fallback);
      }
      result := Prop(sectionData.value, parts[1]);
    } else {
      var current := JObj(tr.value);
      var i := 0;
      while true
        invariant i < |parts|
        invariant Walk(current, parts, i) == Lookup(tr.value, parts)
        decreases |parts| - i
      {
        match Prop(current, parts[i]) {
          case None =>
            return Ok(fallback);
          case Some(v) =>
            current := v;
        }
        if i == |parts| - 1 || current.JStr? {
          result := Some(current);
          break;
        }
        i := i + 1;
      }
    }
    if result.None? {
      return Ok(fallback);
    }
    if |placeholders| > 0 {
      if result.value.JStr? {
        return Ok(JStr(ReplacePlaceholders(result.value.s, placeholders)));
      }
      return Throws(TypeError);
    }
    return Ok(result.value);
  }

  /**
   * t falls back to `defaultValue || key` exactly when nothing is loaded,
   * the key has no dot, or the key names nothing; and without placeholders
   * it returns the value named as it is.
   */
  lemma FallbackCases(tr: Option<map<string, Json>>, key: string, placeholders: map<string, string>)
    ensures tr.None? || Free(key, '.') ==> Translate(tr, key, placeholders) == Ok(JStr(Fallback(placeholders, key)))
    ensures tr.Some? && |Split(key, '.')| >= 2 && Lookup(tr.value, Split(key, '.')).None?
      ==> Translate(tr, key, placeholders) == Ok(JStr(Fallback(placeholders, key)))
    ensures tr.Some? && |Split(key, '.')| >= 2 && Lookup(tr.value, Split(key, '.')).Some? && |placeholders| == 0
      ==> Translate(tr, key, placeholders) == Ok(Lookup(tr.value, Split(key, '.')).value)
  {
    if Free(key, '.') {
      SplitFree(key, '.');
    }
  }

  /**
   * For a key of three or more parts whose first part names a string,
   * t stops there: "title.extra.more" gives the string under "title".
   */
  lemma StopsAtFirstString(tr: map<string, Json>, first: string, rest: seq<string>, s: string)
    requires |rest| >= 2 && first in tr && tr[first] == JStr(s)
    requires Free(first, '.') && forall k :: 0 <= k < |rest| ==> Free(rest[k], '.')
    ensures Translate(Some(tr), Join([first] + rest, '.'), map[]) == Ok(JStr(s))
  {
    var parts := [first] + rest;
    PartsFree(first, rest);
    SplitJoin(parts, '.');
    FirstStringFound(tr, parts, s);
  }

  lemma PartsFree(first: string, rest: seq<string>)
    requires Free(first, '.') && forall k :: 0 <= k < |rest| ==> Free(rest[k], '.')
    ensures forall k :: 0 <= k < |[first] + rest| ==> Free(([first] + rest)[k], '.')
  {
    var parts := [first] + rest;
    forall k | 0 <= k < |parts|
      ensures Free(parts[k], '.')
    {
      if k > 0 {
        assert parts[k] == rest[k - 1];
      }
    }
  }

  /** Three or more parts whose first names a string: the walk stops at that string. */
  lemma FirstStringFound(tr: map<string, Json>, parts: seq<string>, s: string)
    requires |parts| >= 3 && parts[0] in tr && tr[parts[0]] == JStr(s)
    ensures Lookup(tr, parts) == Some(JStr(s))
  {
    assert Prop(JObj(tr), parts[0]) == Some(JStr(s));
  }

  /** A two-part key whose section and entry are present gives that entry. */
  lemma SectionEntry(tr: map<string, Json>, section: string, entry: string, fields: map<string, Json>)
    requires section in tr && tr[section] == JObj(fields) && entry in fields
    requires Free(section, '.') && Free(entry, '.')
    ensures Translate(Some(tr), section + "." + entry, map[]) == Ok(fields[entry])
  {
    SplitJoin([section, entry], '.');
    assert Join([section, entry], '.') == section + "." + entry;
  }

  // ---------------------------------------------------------------------
  // The translation cache.

  /** TRANSLATIONS_CACHE_TTL: twelve hours in milliseconds. */
  const CacheTtlMs := 12 * 60 * 60 * 1000

  /** A cached entry's timestamp (None when missing); an absent or unreadable entry is None. */
  datatype CacheEntry = CacheEntry(timestamp: Option<int>, data: Json)

  /** A timestamp is truthy when present and not 0. */
  predicate Stamped(e: CacheEntry)
  {
    e.timestamp.Some? && e.timestamp.value != 0
  }

  /** getCacheAge: the entry's age, None without an entry or a timestamp. */
  function CacheAge(e: Option<CacheEntry>, now: int): Option<int>
  {
    if e.Some? && Stamped(e.value) then Some(now - e.value.timestamp.value) else None
  }

  /** isCacheExpired: no age, or older than twelve hours. */
  predicate IsCacheExpired(e: Option<CacheEntry>, now: int)
  {
    var age := CacheAge(e, now);
    age.None? || age.value > CacheTtlMs
  }

  /** getTranslationsFromCache: the data of a stamped entry at most twelve hours old. */
  function TranslationsFromCache(e: Option<CacheEntry>, now: int): Option<Json>
  {
    if e.Some? && Stamped(e.value) && now - e.value.timestamp.value <= CacheTtlMs then Some(e.value.data) else None
  }

  /**
   * The two checks agree, at the boundary too: the cache yields its data
   * exactly when it is not expired, and an entry is fresh for exactly
   * twelve hours after its stamp.
   */
  lemma CacheChecksAgree(e: Option<CacheEntry>, now: int)
    ensures TranslationsFromCache(e, now).Some? <==> !IsCacheExpired(e, now)
    ensures TranslationsFromCache(e, now).Some? ==> TranslationsFromCache(e, now).value == e.value.data
    ensures e.Some? && Stamped(e.value) ==>
      (!IsCacheExpired(e, now) <==> now <= e.value.timestamp.value + 43200000)
  {
  }

  // ---------------------------------------------------------------------
  // The translations version.

  /** `${n}` for a parseInt result: NaN prints as "NaN". */
  function NumberText(n: Option<int>): string
  {
    if n.Some? then IntToString(n.value) else "NaN"
  }

  /**
   * translationsVersionController.update: X.Y.Z gets its last part
   * increased by one (each part read with parseInt); any form other than
   * X.Y and X.Y.Z gets ".1" appended. None for X.Y, whose floating-point
   * step is not modelled.
   */
  function UpdateVersion(current: string): Option<string>
  {
    var parts := Split(current, '.');
    if |parts| == 2 then None
    else if |parts| == 3 then
      var patch := ParseInt(parts[2], 10);
      Some(NumberText(ParseInt(parts[0], 10)) + "." + NumberText(ParseInt(parts[1], 10)) + "."
           + NumberText(if patch.Some? then Some(patch.value + 1) else None))
    else Some(current + ".1")
  }

  /** A version X.Y.Z of whole numbers becomes X.Y.(Z+1). */
  lemma PatchBumped(x: int, y: int, z: int)
    ensures UpdateVersion(IntToString(x) + "." + IntToString(y) + "." + IntToString(z))
      == Some(IntToString(x) + "." + IntToString(y) + "." + IntToString(z + 1))
  {
    var a, b, c := IntToString(x), IntToString(y), IntToString(z);
    IntTextFree(x);
    IntTextFree(y);
    IntTextFree(z);
    ThreePiecesSplit(a, b, c);
    PatchBumpedParts(x, y, z, a, b, c);
  }

  lemma ThreePiecesSplit(a: string, b: string, c: string)
    requires Free(a, '.') && Free(b, '.') && Free(c, '.')
    ensures Split(a + "." + b + "." + c, '.') == [a, b, c]
  {
    var parts := [a, b, c];
    SplitJoin(parts, '.');
    assert parts[1..][1..] == [c];
    assert Join(parts[1..], '.') == b + "." + c;
    assert Join(parts, '.') == a + "." + b + "." + c;
  }

  lemma PatchBumpedParts(x: int, y: int, z: int, a: string, b: string, c: string)
    requires a == IntToString(x) && b == IntToString(y) && c == IntToString(z)
    requires Split(a + "." + b + "." + c, '.') == [a, b, c]
    ensures UpdateVersion(a + "." + b + "." + c) == Some(a + "." + b + "." + IntToString(z + 1))
  {
    ParseIntOfIntToString(x);
    ParseIntOfIntToString(y);
    ParseIntOfIntToString(z);
  }

  lemma IntTextFree(i: int)
    ensures Free(IntToString(i), '.')
  {
    var m: nat := if i < 0 then -i else i;
    assert forall k :: 0 <= k < |NatToString(m)| ==> IsDigit(NatToString(m)[k]);
  }

  lemma NumberTexts()
    ensures IntToString(1) == "1" && IntToString(1416) == "1416" && IntToString(1417) == "1417"
  {
    assert NatToString(14) == NatToString(1) + [DigitChar(4)];
    assert NatToString(141) == NatToString(14) + [DigitChar(1)];
    assert 1416 / 10 == 141 && 1416 % 10 == 6 && 1417 / 10 == 141 && 1417 % 10 == 7;
    assert NatToString(1416) == NatToString(141) + [DigitChar(6)];
    assert NatToString(1417) == NatToString(141) + [DigitChar(7)];
  }

  /** The shipped version 1.1.1416 moves to 1.1.1417. */
  lemma ShippedVersion()
    ensures UpdateVersion("1.1.1416") == Some("1.1.1417")
  {
    NumberTexts();
    assert "1.1.1416" == IntToString(1) + "." + IntToString(1) + "." + IntToString(1416);
    assert "1.1.1417" == IntToString(1) + "." + IntToString(1) + "." + IntToString(1416 + 1);
    PatchBumped(1, 1, 1416);
  }
}
