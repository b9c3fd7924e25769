/** Translations: the catalogue reader's memo of what was looked up, the choice of a
    catalogue by locale, and the cache of `Utils::make_string` over both. */
module Catalogue {
  import opened Text

  datatype Item = Item(original: string, translation: string)

  /** A looked-up string; None records a miss. */
  datatype Memo = Memo(original: string, translated: Option<string>)

  /** What a catalogue says: the first entry with that original. */
  function Lookup(table: seq<Item>, s: string): Option<string> {
    if |table| == 0 then None
    else if table[0].original == s then Some(table[0].translation)
    else Lookup(table[1..], s)
  }

  /** Position of the first memo of `s`, or the number of memos. */
  function FirstMemo(memo: seq<Memo>, s: string): (i: nat)
    ensures i <= |memo| && (i < |memo| ==> memo[i].original == s)
    ensures forall j :: 0 <= j < i ==> memo[j].original != s
  {
    if |memo| == 0 || memo[0].original == s then 0 else 1 + FirstMemo(memo[1..], s)
  }

  /** `GettextMoParser::getTranslation`: the answer, and the memo after it. */
  function Recall(table: seq<Item>, memo: seq<Memo>, s: string, length: int): (Option<string>, seq<Memo>) {
    var i := FirstMemo(memo, s);
    if length <= 0 then (None, memo)
    else if i < |memo| then (memo[i].translated, memo)
    else (Lookup(table, s), memo + [Memo(s, Lookup(table, s))])
  }

  /** The directories that hold a catalogue file; None when it cannot be parsed. */
  type Files = map<string, Option<seq<Item>>>

  // ---------------------------------------------------------------- the locale

  function Position(s: string, c: char): (i: nat)
    ensures i <= |s| && (i < |s| ==> s[i] == c)
    ensures forall j :: 0 <= j < i ==> s[j] != c
  {
    if s == "" || s[0] == c then 0 else 1 + Position(s[1..], c)
  }

  function LanguageOf(code: string): string { code[..Position(code, '_')] }

  /** At most ten characters follow the underscore. */
  function CountryOf(code: string): string {
    var i := Position(code, '_');
    if i == |code| then "" else if |code| - (i + 1) <= 10 then code[i + 1..] else code[i + 1..i + 11]
  }

  function LocaleOf(code: string): string {
    if CountryOf(code) == "" then LanguageOf(code) else LanguageOf(code) + "_" + CountryOf(code)
  }

  /** The catalogue of the locale, or else the one of its language; the choice looks only
      at which files exist. */
  function Chosen(files: Files, locale: string, language: string): Option<seq<Item>> {
    if locale in files then files[locale]
    else if language in files then files[language]
    else None
  }

  // ---------------------------------------------------------------- the reader

  /** A `LauGettext`: `loaded` is the catalogue in memory, if one is. */
  datatype Gettext = Gettext(language: string, locale: string, loaded: Option<seq<Item>>, memo: seq<Memo>)

  function NewGettext(): Gettext { Gettext("en", "en_US", None, []) }

  function WithLocale(g: Gettext, code: string): Gettext { Gettext(LanguageOf(code), LocaleOf(code), None, []) }

  function Ask(files: Files, g: Gettext, s: string, length: int): (Option<string>, Gettext) {
    var loaded := if g.loaded.Some? then g.loaded else Chosen(files, g.locale, g.language);
    match loaded
    case None => (None, g)
    case Some(table) =>
      var (answer, memo) := Recall(table, g.memo, s, length);
      (answer, g.(loaded := loaded, memo := memo))
  }

  class LauGettext {
    const files: Files
    var language: string
    var locale: string
    var loaded: Option<seq<Item>>
    var memo: seq<Memo>

    constructor (files: Files)
      ensures this.files == files && View() == NewGettext()
    {
      this.files := files;
      language, locale, loaded, memo := "en", "en_US", None, [];
    }

    function View(): Gettext
      reads this
    {
      Gettext(language, locale, loaded, memo)
    }

    method SetLocale(code: string)
      modifies this
      ensures View() == WithLocale(old(View()), code)
    {
      var splitIndex := Position(code, '_');
      var country := "";
      if splitIndex < |code| {
        language := code[..splitIndex];
        country := CountryOf(code);
      } else {
        language := code;
      }
      locale := if country == "" then language else language + "_" + country;
      loaded, memo := None, [];
    }

    method GetTranslation(original: string, length: int) returns (r: Option<string>)
      modifies this
      ensures (r, View()) == Ask(files, old(View()), original, length)
    {
      if loaded.None? {
        loaded := Chosen(files, locale, language);
        if loaded.None? { return None; }
      }
      r := FromTable(loaded.value, original, length);
    }

    /** The scan of the memo, then of the table. */
    method FromTable(table: seq<Item>, original: string, length: int) returns (r: Option<string>)
      modifies this`memo
      ensures (r, memo) == Recall(table, old(memo), original, length)
    {
      if length <= 0 { return None; }
      var i := 0;
      while i < |memo|
        invariant 0 <= i <= |memo| && memo == old(memo)
        invariant forall j :: 0 <= j < i ==> memo[j].original != original
      {
        if memo[i].original == original { return memo[i].translated; }
        i := i + 1;
      }
      var index := 0;
      assert table[0..] == table;
      while index < |table| && table[index].original != original
        invariant 0 <= index <= |table| && Lookup(table, original) == Lookup(table[index..], original)
        invariant memo == old(memo)
      {
        index := index + 1;
      }
      r := if index < |table| then Some(table[index].translation) else None;
      memo := memo + [Memo(original, r)];
    }
  }

  // ---------------------------------------------------------------- histories

  datatype Request = SetLocale(code: string) | Get(s: string, length: int)

  /** The answers of one reader to a history of requests. */
  function Answers(files: Files, g: Gettext, rs: seq<Request>): seq<Option<string>>
    decreases |rs|
  {
    if |rs| == 0 then []
    else
      match rs[0]
      case SetLocale(code) => Answers(files, WithLocale(g, code), rs[1..])
      case Get(s, length) =>
        var (answer, g') := Ask(files, g, s, length);
        [answer] + Answers(files, g', rs[1..])
  }

  /** What the files say, with nothing remembered. */
  function Direct(files: Files, locale: string, language: string, s: string, length: int): Option<string> {
    match Chosen(files, locale, language)
    case None => None
    case Some(table) => if length <= 0 then None else Lookup(table, s)
  }

  function DirectAnswers(files: Files, locale: string, language: string, rs: seq<Request>): seq<Option<string>>
    decreases |rs|
  {
    if |rs| == 0 then []
    else
      match rs[0]
      case SetLocale(code) => DirectAnswers(files, LocaleOf(code), LanguageOf(code), rs[1..])
      case Get(s, length) =>
        [Direct(files, locale, language, s, length)] + DirectAnswers(files, locale, language, rs[1..])
  }

  /** What is in memory is the catalogue of the locale, and the memos agree with it. */
  ghost predicate Faithful(files: Files, g: Gettext) {
    (g.loaded.Some? ==> g.loaded == Chosen(files, g.locale, g.language)) &&
    (g.loaded.None? ==> |g.memo| == 0) &&
    (forall i :: 0 <= i < |g.memo| ==> g.memo[i].translated == Lookup(g.loaded.value, g.memo[i].original))
  }

  lemma AskIsDirect(files: Files, g: Gettext, s: string, length: int)
    requires Faithful(files, g)
    ensures Ask(files, g, s, length).0 == Direct(files, g.locale, g.language, s, length)
    ensures var g' := Ask(files, g, s, length).1;
            Faithful(files, g') && g'.locale == g.locale && g'.language == g.language
  {
    hide Lookup;
  }

  /** The memo and the loaded catalogue are invisible: whatever was asked before, hits and
      misses, and through every change of locale, the answers are those of the files. */
  lemma {:induction false} MemoTransparent(files: Files, g: Gettext, rs: seq<Request>)
    requires Faithful(files, g)
    ensures Answers(files, g, rs) == DirectAnswers(files, g.locale, g.language, rs)
    decreases |rs|
  {
    hide Ask;
    hide Direct;
    if |rs| > 0 {
      match rs[0]
      case SetLocale(code) => MemoTransparent(files, WithLocale(g, code), rs[1..]);
      case Get(s, length) =>
        AskIsDirect(files, g, s, length);
        hide Faithful;
        MemoTransparent(files, Ask(files, g, s, length).1, rs[1..]);
    }
  }

  // ---------------------------------------------------------------- make_string

  /** For each text, the language it was first asked in and the template found then. */
  type Cache = map<string, (string, string)>

  function Code(lang: string, configured: Option<string>): string {
    if lang != "" then lang else match configured case Some(code) => code case None => "en"
  }

  /** The template of a text, looked up with no cache. */
  function Template(files: Files, configured: Option<string>, lang: string, fmt: string): string {
    var code := Code(lang, configured);
    match Direct(files, LocaleOf(code), LanguageOf(code), fmt, |fmt|) case None => fmt case Some(msg) => msg
  }

  /** An entry already there is neither used for another language nor replaced. */
  function Cached(files: Files, configured: Option<string>, cache: Cache, lang: string, fmt: string): (string, Cache) {
    if fmt in cache && cache[fmt].0 == lang then (cache[fmt].1, cache)
    else
      var msg := Template(files, configured, lang, fmt);
      (msg, if fmt in cache then cache else cache[fmt := (lang, msg)])
  }

  class Formatter {
    const files: Files
    const configured: Option<string>
    var cache: Cache

    constructor (files: Files, configured: Option<string>)
      ensures this.files == files && this.configured == configured && cache == map[]
    {
      this.files, this.configured := files, configured;
      cache := map[];
    }

    /** `make_string` up to the choice of the template. */
    method MakeString(lang: string, fmt: string) returns (msg: string)
      modifies this`cache
      ensures (msg, cache) == Cached(files, configured, old(cache), lang, fmt)
    {
      if fmt in cache {
        if cache[fmt].0 == lang { return cache[fmt].1; }
      }
      var getxt := new LauGettext(files);
      if lang != "" {
        getxt.SetLocale(lang);
      } else if configured.Some? {
        getxt.SetLocale(configured.value);
      } else {
        getxt.SetLocale("en");
      }
      AskIsDirect(files, getxt.View(), fmt, |fmt|);
      var message := getxt.GetTranslation(fmt, |fmt|);
      msg := if message.None? then fmt else message.value;
      if fmt !in cache { cache := cache[fmt := (lang, msg)]; }
    }
  }

  function Served(files: Files, configured: Option<string>, cache: Cache, rs: seq<(string, string)>): seq<string>
    decreases |rs|
  {
    if |rs| == 0 then []
    else
      var (msg, cache') := Cached(files, configured, cache, rs[0].0, rs[0].1);
      [msg] + Served(files, configured, cache', rs[1..])
  }

  ghost predicate Right(files: Files, configured: Option<string>, cache: Cache) {
    forall fmt :: fmt in cache ==> cache[fmt].1 == Template(files, configured, cache[fmt].0, fmt)
  }

  /** The cache is keyed by the text alone, yet in any history of requests, in any mix of
      languages, every one gets the template of its own language. */
  lemma {:induction false} CacheTransparent(files: Files, configured: Option<string>, cache: Cache,
                                            rs: seq<(string, string)>)
    requires Right(files, configured, cache)
    ensures var out := Served(files, configured, cache, rs);
            |out| == |rs| && forall i :: 0 <= i < |rs| ==> out[i] == Template(files, configured, rs[i].0, rs[i].1)
    decreases |rs|
  {
    hide Template;
    if |rs| > 0 {
      CacheTransparent(files, configured, Cached(files, configured, cache, rs[0].0, rs[0].1).1, rs[1..]);
    }
  }

  // ---------------------------------------------------------------- the answer written out

  /** The entry at `i` is the first for `s`. */
  ghost predicate FirstFor(table: seq<Item>, s: string, i: nat) {
    i < |table| && table[i].original == s && forall j :: 0 <= j < i ==> table[j].original != s
  }

  /** A file that cannot be parsed, or has no entry for `s`. */
  ghost predicate Silent(file: Option<seq<Item>>, s: string) {
    file.None? || forall j :: 0 <= j < |file.value| ==> file.value[j].original != s
  }

  lemma {:induction false} LookupIs(table: seq<Item>, s: string, i: nat)
    ensures FirstFor(table, s, i) ==> Lookup(table, s) == Some(table[i].translation)
    ensures (forall j :: 0 <= j < |table| ==> table[j].original != s) ==> Lookup(table, s) == None
    ensures Lookup(table, s) != None ==> exists j :: 0 <= j < |table| && table[j].original == s
  {
    if |table| > 0 {
      LookupIs(table[1..], s, if i > 0 then i - 1 else 0);
      if FirstFor(table, s, i) && i > 0 {
        assert forall j :: 0 <= j < i - 1 ==> table[1..][j] == table[j + 1];
        assert FirstFor(table[1..], s, i - 1);
      }
      assert forall j :: 0 <= j < |table| - 1 ==> table[1..][j] == table[j + 1];
    }
  }

  lemma {:induction false} PositionIs(l: string, rest: string, c: char)
    requires c !in l
    ensures Position(l + rest, c) == |l| + Position(rest, c)
  {
    if l == "" {
      assert l + rest == rest;
    } else {
      assert (l + rest)[0] == l[0] && (l + rest)[1..] == l[1..] + rest;
      PositionIs(l[1..], rest, c);
    }
  }

  /** A code is a language, or a language, an underscore and a country, of which ten characters
      are kept; without a country the locale is the language. */
  lemma CodeSplit(l: string, c: string)
    requires '_' !in l
    ensures LanguageOf(l) == l && LocaleOf(l) == l
    ensures LanguageOf(l + "_" + c) == l
    ensures LocaleOf(l + "_" + c) == if c == "" then l else if |c| <= 10 then l + "_" + c else l + "_" + c[..10]
  {
    var code := l + "_" + c;
    PositionIs(l, "", '_');
    assert l + "" == l;
    PositionIs(l, "_" + c, '_');
    assert l + ("_" + c) == code && code[..|l|] == l && code[|l| + 1..] == c;
    if |c| > 10 { assert code[|l| + 1..|l| + 11] == c[..10]; }
  }

  /** Which file answers: the one of the locale if it exists, even if it cannot be parsed, and
      the one of the language only if it does not; the answer is the translation of the first
      entry with that text. Without a file, without an entry, and for an empty text, the text
      stands for itself. */
  lemma TemplateIs(files: Files, configured: Option<string>, lang: string, l: string, c: string, fmt: string, i: nat)
    requires '_' !in l && 0 < |c| <= 10
    requires lang == l + "_" + c || (lang == "" && configured == Some(l + "_" + c))
    ensures var r, name := Template(files, configured, lang, fmt), l + "_" + c;
            (name in files && files[name].Some? && fmt != "" && FirstFor(files[name].value, fmt, i) ==>
               r == files[name].value[i].translation) &&
            (name !in files && l in files && files[l].Some? && fmt != "" && FirstFor(files[l].value, fmt, i) ==>
               r == files[l].value[i].translation) &&
            (name in files && Silent(files[name], fmt) ==> r == fmt) &&
            (name !in files && l in files && Silent(files[l], fmt) ==> r == fmt) &&
            (name !in files && l !in files ==> r == fmt) && (fmt == "" ==> r == fmt)
  {
    var name := l + "_" + c;
    CodeSplit(l, c);
    if name in files && files[name].Some? { LookupIs(files[name].value, fmt, i); }
    else if l in files && files[l].Some? { LookupIs(files[l].value, fmt, i); }
    hide LocaleOf;
    hide LanguageOf;
    hide Lookup;
  }

  /** A code without a country has one file; with no language asked for and none configured the
      code is `en`. */
  lemma PlainCode(files: Files, configured: Option<string>, lang: string, fmt: string, i: nat)
    requires fmt != ""
    ensures var code := if lang != "" then lang else if configured.Some? then configured.value else "en";
            var r := Template(files, configured, lang, fmt);
            '_' !in code ==>
              (code in files && files[code].Some? && FirstFor(files[code].value, fmt, i) ==>
                 r == files[code].value[i].translation) &&
              (code in files && Silent(files[code], fmt) ==> r == fmt) && (code !in files ==> r == fmt)
  {
    var code := if lang != "" then lang else if configured.Some? then configured.value else "en";
    if '_' !in code {
      CodeSplit(code, "");
      if code in files && files[code].Some? { LookupIs(files[code].value, fmt, i); }
    }
    hide LocaleOf;
    hide LanguageOf;
    hide Lookup;
  }

  /** A reader that was never told a locale looks for `en_US`, and then for `en`. */
  lemma NewReader(files: Files, fmt: string, i: nat)
    requires fmt != ""
    ensures var answer := Ask(files, NewGettext(), fmt, |fmt|).0;
            var file := if "en_US" in files then files["en_US"] else if "en" in files then files["en"] else None;
            (file.None? ==> answer == None) &&
            (file.Some? && FirstFor(file.value, fmt, i) ==> answer == Some(file.value[i].translation))
  {
    var file := if "en_US" in files then files["en_US"] else if "en" in files then files["en"] else None;
    if file.Some? { LookupIs(file.value, fmt, i); }
    hide Lookup;
    hide Silent;
  }

  /** An entry of the cache is kept whatever is asked; a text that has none gets one. */
  lemma FirstKept(files: Files, configured: Option<string>, cache: Cache, lang: string, fmt: string)
    ensures var (msg, after) := Cached(files, configured, cache, lang, fmt);
            (fmt in cache ==> after == cache) && (fmt !in cache ==> after == cache[fmt := (lang, msg)])
  {
    hide Template;
  }
}
