/** `BottomLanguageBar`: the row of language buttons built from the "name:code" entries of
    the language array. Three revisions differ in the separator rule and in whether the
    current language is highlighted. */
module LanguageBar {
  import opened KotlinLib
  import opened Preferences

  /** When a "|" follows an entry. */
  datatype SeparatorRule =
    | UnlessLastName   // `if (langName != languages.last().split(":").first())`
    | AfterEvery       // unconditionally

  datatype BarItem = Button(name: string, code: string, highlighted: bool) | Separator

  /** `val (langName, langCode) = entry.split(":")`: the first two fields; an entry
      without ':' has one field, and destructuring it throws. */
  function ParseEntry(entry: string): (r: Outcome<(string, string)>)
    ensures r.Ok? <==> ':' in entry
    ensures r.Throws? ==> r.error == IndexOutOfBounds
    ensures r.Ok? ==> ':' !in r.value.0 && ':' !in r.value.1
  {
    var fields := Split(entry, ':');
    SplitCount(entry, ':');
    if |fields| < 2 then Throws(IndexOutOfBounds) else Ok((fields[0], fields[1]))
  }

  /** An entry written as name ':' code, optionally followed by more ':'-fields, parses to
      exactly that name and code: later fields are ignored. */
  lemma ParseEntryOf(name: string, code: string, tail: string)
    requires ':' !in name && ':' !in code
    requires tail == [] || tail[0] == ':'
    ensures ParseEntry(name + [':'] + code + tail) == Ok((name, code))
  {
    SplitAtFirstDelimiter(name, ':', code + tail);
    assert name + [':'] + code + tail == name + [':'] + (code + tail);
    if tail == [] {
      assert code + tail == code;
      SplitNoDelimiter(code, ':');
    } else {
      assert code + tail == code + [':'] + tail[1..];
      SplitAtFirstDelimiter(code, ':', tail[1..]);
    }
  }

  /** `languages.last().split(":").first()`. */
  function LastName(entries: seq<string>): string
    requires |entries| > 0
  {
    Split(entries[|entries| - 1], ':')[0]
  }

  /** The button of a parseable entry; highlighted when its code is the current one (the
      revisions without highlighting pass no current code). */
  function EntryButton(entry: string, current: Option<string>): (b: BarItem)
    requires ':' in entry
    ensures b.Button? && (b.name, b.code) == ParseEntry(entry).value
    ensures b.highlighted <==> current == Some(b.code)
  {
    var p := ParseEntry(entry).value;
    Button(p.0, p.1, current == Some(p.1))
  }

  /** Whether a separator follows a parseable entry. */
  predicate HasSeparator(entry: string, lastName: string, rule: SeparatorRule)
    requires ':' in entry
  {
    rule == AfterEvery || ParseEntry(entry).value.0 != lastName
  }

  /** What one entry contributes: its button, then a separator when the rule asks for one. */
  function EntryItems(entry: string, lastName: string, rule: SeparatorRule, current: Option<string>): (r: Outcome<seq<BarItem>>)
    ensures r.Ok? <==> ':' in entry
    ensures r.Throws? ==> r.error == IndexOutOfBounds
    ensures r.Ok? ==> 1 <= |r.value| <= 2 && r.value[0] == EntryButton(entry, current)
    ensures r.Ok? ==> (|r.value| == 2 <==> HasSeparator(entry, lastName, rule))
    ensures r.Ok? && |r.value| == 2 ==> r.value[1] == Separator
  {
    var p := ParseEntry(entry);
    if p.Throws? then Throws(p.error)
    else Ok([EntryButton(entry, current)] + (if HasSeparator(entry, lastName, rule) then [Separator] else []))
  }

  /** The items of `entries`, in order; the first entry that fails to parse throws. */
  function Items(entries: seq<string>, lastName: string, rule: SeparatorRule, current: Option<string>): Outcome<seq<BarItem>>
  {
    if |entries| == 0 then Ok([])
    else
      var head := EntryItems(entries[0], lastName, rule, current);
      if head.Throws? then head
      else
        var tail := Items(entries[1..], lastName, rule, current);
        if tail.Throws? then tail else Ok(head.value + tail.value)
  }

  /** `items(languages) { ... }`: the whole bar. */
  function Bar(entries: seq<string>, rule: SeparatorRule, current: Option<string>): Outcome<seq<BarItem>>
  {
    if |entries| == 0 then Ok([]) else Items(entries, LastName(entries), rule, current)
  }

  /** The bar is built exactly when every entry contains ':'. */
  lemma {:induction false} ItemsOk(entries: seq<string>, lastName: string, rule: SeparatorRule, current: Option<string>)
    ensures Items(entries, lastName, rule, current).Ok? <==> forall i :: 0 <= i < |entries| ==> ':' in entries[i]
  {
    if |entries| > 0 {
      ItemsOk(entries[1..], lastName, rule, current);
      assert forall i :: 1 <= i < |entries| ==> entries[i] == entries[1..][i - 1];
    }
  }

  /** The buttons of a row of items, in order. */
  function Buttons(items: seq<BarItem>): seq<BarItem>
  {
    if |items| == 0 then [] else (if items[0].Button? then [items[0]] else []) + Buttons(items[1..])
  }

  lemma {:induction false} ButtonsAppend(a: seq<BarItem>, b: seq<BarItem>)
    ensures Buttons(a + b) == Buttons(a) + Buttons(b)
  {
    if |a| == 0 {
      assert a + b == b;
    } else {
      assert (a + b)[0] == a[0];
      assert (a + b)[1..] == a[1..] + b;
      ButtonsAppend(a[1..], b);
      var first := if a[0].Button? then [a[0]] else [];
      assert Buttons(a + b) == first + (Buttons(a[1..]) + Buttons(b));
    }
  }

  /** The number of separators a rule puts after parseable entries. */
  function SeparatorCount(entries: seq<string>, lastName: string, rule: SeparatorRule): nat
    requires forall i :: 0 <= i < |entries| ==> ':' in entries[i]
  {
    if |entries| == 0 then 0
    else (if HasSeparator(entries[0], lastName, rule) then 1 else 0) + SeparatorCount(entries[1..], lastName, rule)
  }

  /** Under either rule: one button per entry, in list order, with the entry's name and code,
      highlighted exactly when its code is the current one; the rest are separators. */
  lemma {:induction false} ItemsShape(entries: seq<string>, lastName: string, rule: SeparatorRule, current: Option<string>)
    requires forall i :: 0 <= i < |entries| ==> ':' in entries[i]
    ensures Items(entries, lastName, rule, current).Ok?
    ensures var buttons := Buttons(Items(entries, lastName, rule, current).value);
            |buttons| == |entries| &&
            forall i :: 0 <= i < |entries| ==> buttons[i] == EntryButton(entries[i], current)
    ensures |Items(entries, lastName, rule, current).value| == |entries| + SeparatorCount(entries, lastName, rule)
  {
    ItemsOk(entries, lastName, rule, current);
    if |entries| > 0 {
      var rest := entries[1..];
      ItemsShape(rest, lastName, rule, current);
      var head := EntryItems(entries[0], lastName, rule, current).value;
      var tail := Items(rest, lastName, rule, current).value;
      ButtonsAppend(head, tail);
      if |head| == 2 {
        assert head == [head[0]] + [Separator];
        ButtonsAppend([head[0]], [Separator]);
        assert Buttons([Separator]) == [] + Buttons([]);
      }
      assert Buttons([head[0]]) == [head[0]] + Buttons([]);
      assert Buttons(head) == [EntryButton(entries[0], current)];
      var buttons := Buttons(Items(entries, lastName, rule, current).value);
      forall i | 0 <= i < |entries| ensures buttons[i] == EntryButton(entries[i], current) {
        if i > 0 { assert entries[i] == rest[i - 1]; }
      }
    }
  }

  /** The revision that separates every entry interleaves exactly n buttons and n separators. */
  lemma {:induction false} AfterEveryInterleaves(entries: seq<string>, lastName: string, current: Option<string>)
    requires forall i :: 0 <= i < |entries| ==> ':' in entries[i]
    ensures Items(entries, lastName, AfterEvery, current).Ok?
    ensures var items := Items(entries, lastName, AfterEvery, current).value;
            |items| == 2 * |entries| &&
            forall i :: 0 <= i < |entries| ==> items[2 * i] == EntryButton(entries[i], current) && items[2 * i + 1] == Separator
  {
    ItemsOk(entries, lastName, AfterEvery, current);
    if |entries| > 0 {
      var rest := entries[1..];
      AfterEveryInterleaves(rest, lastName, current);
      var items := Items(entries, lastName, AfterEvery, current).value;
      var tail := Items(rest, lastName, AfterEvery, current).value;
      assert items == [EntryButton(entries[0], current), Separator] + tail;
      forall i | 0 <= i < |entries|
        ensures items[2 * i] == EntryButton(entries[i], current) && items[2 * i + 1] == Separator
      {
        if i > 0 {
          assert entries[i] == rest[i - 1];
          assert items[2 * i] == tail[2 * (i - 1)] && items[2 * i + 1] == tail[2 * (i - 1) + 1];
        }
      }
    }
  }

  /** Under the last-name rule the bar never ends in a separator: its last item is the last
      entry's button. */
  lemma {:induction false} NoTrailingSeparator(entries: seq<string>, lastName: string, current: Option<string>)
    requires |entries| > 0 && forall i :: 0 <= i < |entries| ==> ':' in entries[i]
    requires ParseEntry(entries[|entries| - 1]).value.0 == lastName
    ensures Items(entries, lastName, UnlessLastName, current).Ok?
    ensures var items := Items(entries, lastName, UnlessLastName, current).value;
            |items| > 0 && items[|items| - 1] == EntryButton(entries[|entries| - 1], current)
  {
    ItemsOk(entries, lastName, UnlessLastName, current);
    if |entries| > 1 {
      var rest := entries[1..];
      assert rest[|rest| - 1] == entries[|entries| - 1];
      NoTrailingSeparator(rest, lastName, current);
    }
  }

  /** The name of the last entry is the name ParseEntry gives it. */
  lemma LastNameIsParsedName(entries: seq<string>)
    requires |entries| > 0 && ':' in entries[|entries| - 1]
    ensures LastName(entries) == ParseEntry(entries[|entries| - 1]).value.0
  {
  }

  /** With distinct names, the last-name rule puts a separator between consecutive buttons
      only: 2n - 1 items for n entries. */
  lemma {:induction false} DistinctNamesSeparators(entries: seq<string>, lastName: string)
    requires |entries| > 0 && forall i :: 0 <= i < |entries| ==> ':' in entries[i]
    requires ParseEntry(entries[|entries| - 1]).value.0 == lastName
    requires forall i :: 0 <= i < |entries| - 1 ==> ParseEntry(entries[i]).value.0 != lastName
    ensures SeparatorCount(entries, lastName, UnlessLastName) == |entries| - 1
  {
    if |entries| > 1 {
      var rest := entries[1..];
      assert forall i :: 0 <= i < |rest| ==> rest[i] == entries[i + 1];
      DistinctNamesSeparators(rest, lastName);
    }
  }

  /** The last-name revisions' bar for entries with distinct names: 2n - 1 items, ending in
      the last entry's button. */
  lemma DistinctNamesBar(entries: seq<string>, current: Option<string>)
    requires |entries| > 0 && forall i :: 0 <= i < |entries| ==> ':' in entries[i]
    requires forall i, j :: 0 <= i < j < |entries| ==> ParseEntry(entries[i]).value.0 != ParseEntry(entries[j]).value.0
    ensures Bar(entries, UnlessLastName, current).Ok?
    ensures var items := Bar(entries, UnlessLastName, current).value;
            |items| == 2 * |entries| - 1 && items[|items| - 1] == EntryButton(entries[|entries| - 1], current)
  {
    var lastName := LastName(entries);
    LastNameIsParsedName(entries);
    ItemsShape(entries, lastName, UnlessLastName, current);
    DistinctNamesSeparators(entries, lastName);
    NoTrailingSeparator(entries, lastName, current);
  }

  /** An earlier entry that shares the last entry's name loses its separator too. */
  lemma DuplicateLastName()
    ensures Bar(["a:x", "b:y", "a:z"], UnlessLastName, None)
         == Ok([Button("a", "x", false), Button("b", "y", false), Separator, Button("a", "z", false)])
    ensures Bar(["a:x", "b:y", "a:z"], AfterEvery, None)
         == Ok([Button("a", "x", false), Separator, Button("b", "y", false), Separator, Button("a", "z", false), Separator])
  {
    var es := ["a:x", "b:y", "a:z"];
    EntryFacts("a:x", "a", "x", "a", UnlessLastName);
    EntryFacts("b:y", "b", "y", "a", UnlessLastName);
    EntryFacts("a:z", "a", "z", "a", UnlessLastName);
    EntryFacts("a:x", "a", "x", "a", AfterEvery);
    EntryFacts("b:y", "b", "y", "a", AfterEvery);
    EntryFacts("a:z", "a", "z", "a", AfterEvery);
    assert LastName(es) == "a" by {
      SplitAtFirstDelimiter("a", ':', "z");
      assert "a" + [':'] + "z" == "a:z";
    }
    var e2 := ["b:y", "a:z"];
    var e3 := ["a:z"];
    assert es[1..] == e2 && e2[1..] == e3 && e3[1..] == [];
    forall rule: SeparatorRule ensures Items([], "a", rule, None) == Ok([]) {}
    assert Items(e3, "a", UnlessLastName, None).value == [Button("a", "z", false)];
    assert Items(e2, "a", UnlessLastName, None).value == [Button("b", "y", false), Separator, Button("a", "z", false)];
    assert Items(es, "a", UnlessLastName, None).value
        == [Button("a", "x", false), Button("b", "y", false), Separator, Button("a", "z", false)];
    assert Items(e3, "a", AfterEvery, None).value == [Button("a", "z", false), Separator];
    assert Items(e2, "a", AfterEvery, None).value == [Button("b", "y", false), Separator, Button("a", "z", false), Separator];
    assert Items(es, "a", AfterEvery, None).value
        == [Button("a", "x", false), Separator, Button("b", "y", false), Separator, Button("a", "z", false), Separator];
  }

  /** The items of a one-letter "n:c" entry. */
  lemma EntryFacts(entry: string, name: string, code: string, lastName: string, rule: SeparatorRule)
    requires |name| == 1 && |code| == 1 && name[0] != ':' && code[0] != ':' && entry == name + ":" + code
    ensures rule == AfterEvery || name != lastName ==>
              EntryItems(entry, lastName, rule, None) == Ok([Button(name, code, false), Separator])
    ensures rule == UnlessLastName && name == lastName ==>
              EntryItems(entry, lastName, rule, None) == Ok([Button(name, code, false)])
  {
    ParseEntryOf(name, code, "");
    assert name + [':'] + code + "" == entry;
    assert entry[1] == ':';
    assert ParseEntry(entry) == Ok((name, code));
    assert EntryButton(entry, None) == Button(name, code, false);
    assert HasSeparator(entry, lastName, rule) <==> rule == AfterEvery || name != lastName;
    if rule == AfterEvery || name != lastName {
      assert EntryItems(entry, lastName, rule, None).value == [Button(name, code, false), Separator];
    } else {
      assert EntryItems(entry, lastName, rule, None).value == [Button(name, code, false)];
    }
  }

  const LanguageKey: string := "selected_language"

  /** `getPersistedLocale()`: `getString("selected_language", null)`. */
  function PersistedLocale(prefs: Store): (r: Outcome<Option<string>>)
    ensures LanguageKey !in prefs ==> r == Ok(None)
    ensures LanguageKey in prefs && prefs[LanguageKey].StringPref? ==> r == Ok(Some(prefs[LanguageKey].s))
    ensures LanguageKey in prefs && !prefs[LanguageKey].StringPref? ==> r == Throws(ClassCast)
  {
    GetString(prefs, LanguageKey, None)
  }

  /** `getPersistedLocale() ?: Locale.getDefault().language`. */
  function CurrentCode(persisted: Option<string>, defaultLanguage: string): (code: string)
    ensures persisted.Some? ==> code == persisted.value
    ensures persisted.None? ==> code == defaultLanguage
  {
    if persisted.Some? then persisted.value else defaultLanguage
  }

  /** `setLocale(code)` as far as the store is concerned (the locale change itself is a
      platform call). */
  function SetLocale(prefs: Store, code: string): (p: Store)
    ensures p == prefs[LanguageKey := StringPref(code)]
  {
    prefs[LanguageKey := StringPref(code)]
  }

  /** After clicking entry i the bar is rebuilt with that entry's code as the current one,
      and its button, and only buttons with the same code, are highlighted. */
  lemma ClickHighlightsEntry(prefs: Store, entries: seq<string>, i: nat, defaultLanguage: string)
    requires i < |entries| && forall k :: 0 <= k < |entries| ==> ':' in entries[k]
    ensures var code := ParseEntry(entries[i]).value.1;
            var current := CurrentCode(PersistedLocale(SetLocale(prefs, code)).value, defaultLanguage);
            current == code &&
            Bar(entries, UnlessLastName, Some(current)).Ok? &&
            var buttons := Buttons(Bar(entries, UnlessLastName, Some(current)).value);
            |buttons| == |entries| && buttons[i].Button? && buttons[i].highlighted &&
            forall k :: 0 <= k < |entries| ==> buttons[k].Button? && (buttons[k].highlighted <==> buttons[k].code == code)
  {
    var code := ParseEntry(entries[i]).value.1;
    ItemsShape(entries, LastName(entries), UnlessLastName, Some(code));
  }
}
