// The flashcards home page (app/flashcards/page.jsx): the selected CEFR
// levels and their toggle, which is persisted to the progress store, the
// Start Learning navigation, and the guard that keeps one AI generation in
// flight at a time. Alerts, confirmation dialogs and the HTTP call itself
// are outside the model: the user's answer to the dialog is a parameter.

module FlashcardsPage {
  import opened Wrappers
  import opened JsText
  import opened ProgressStore
  import Sorting

  /** `prev.filter((l) => l !== level)`: every occurrence of the level removed. */
  function Remove(s: seq<string>, x: string): (r: seq<string>)
    ensures x !in r
    ensures forall y :: y != x ==> multiset(r)[y] == multiset(s)[y]
    ensures |r| <= |s|
  {
    if s == [] then []
    else
      assert s == [s[0]] + s[1..];
      (if s[0] == x then [] else [s[0]]) + Remove(s[1..], x)
  }

  /** Removing a level that is not there changes nothing. */
  lemma {:induction false} RemoveAbsent(s: seq<string>, x: string)
    requires x !in s
    ensures Remove(s, x) == s
  {
    if s != [] {
      RemoveAbsent(s[1..], x);
      assert [s[0]] + s[1..] == s;
    }
  }

  /** handleLevelToggle's new list: a present level is removed (every occurrence),
      an absent one is appended. */
  function ToggleLevel(prev: seq<string>, level: string): (r: seq<string>)
    ensures level in prev ==> r == Remove(prev, level)
    ensures level !in prev ==> r == prev + [level]
  {
    if level in prev then Remove(prev, level) else prev + [level]
  }

  /** Toggling twice restores the set of selected levels, and the list itself
      when the level was absent at first (when it was present it moves to the end). */
  lemma ToggleTwice(prev: seq<string>, level: string)
    ensures (set l | l in ToggleLevel(ToggleLevel(prev, level), level)) == (set l | l in prev)
    ensures level !in prev ==> ToggleLevel(ToggleLevel(prev, level), level) == prev
    ensures level in prev ==> ToggleLevel(ToggleLevel(prev, level), level) == Remove(prev, level) + [level]
  {
    var once := ToggleLevel(prev, level);
    var twice := ToggleLevel(once, level);
    if level in prev {
      assert level !in once;
      forall l ensures l in twice <==> l in prev {
        if l != level {
          assert l in twice <==> multiset(twice)[l] > 0;
          assert multiset(twice)[l] == multiset(once)[l] == multiset(prev)[l];
        }
      }
    } else {
      assert level in once;
      RemoveAbsent(prev, level);
      assert multiset(prev + [level]) == multiset(prev) + multiset{level};
      assert Remove(prev + [level], level) == prev by {
        RemoveAppend(prev, level);
      }
    }
  }

  lemma {:induction false} RemoveAppend(s: seq<string>, x: string)
    requires x !in s
    ensures Remove(s + [x], x) == s
  {
    if s == [] {
      assert [x][1..] == [];
    } else {
      assert (s + [x])[1..] == s[1..] + [x];
      RemoveAppend(s[1..], x);
      assert [s[0]] + s[1..] == s;
    }
  }

  /** filter keeps the order: removing from a concatenation removes from each
      part. */
  lemma {:induction false} RemoveConcat(a: seq<string>, b: seq<string>, x: string)
    ensures Remove(a + b, x) == Remove(a, x) + Remove(b, x)
  {
    if a == [] {
      assert a + b == b;
    } else {
      var y, rest := a[0], a[1..];
      assert a == [y] + rest;
      assert a + b == [y] + (rest + b);
      var h := if y == x then [] else [y];
      RemoveCons(y, rest, x);
      RemoveCons(y, rest + b, x);
      RemoveConcat(rest, b, x);
      calc {
        Remove(a + b, x);
        h + Remove(rest + b, x);
        h + (Remove(rest, x) + Remove(b, x));
        { Sorting.ConcatAssoc(h, Remove(rest, x), Remove(b, x)); }
        (h + Remove(rest, x)) + Remove(b, x);
        Remove(a, x) + Remove(b, x);
      }
    }
  }

  lemma RemoveCons(y: string, s: seq<string>, x: string)
    ensures Remove([y] + s, x) == (if y == x then [] else [y]) + Remove(s, x)
  {
    assert ([y] + s)[0] == y;
    assert ([y] + s)[1..] == s;
  }

  /** A single element stays exactly when it is not the level. */
  lemma RemoveSingle(y: string, x: string)
    ensures Remove([y], x) == if y == x then [] else [y]
  {
    assert [y][1..] == [];
  }

  /** handleStartLearning: no navigation with nothing selected, otherwise the
      learn page with the levels joined by commas. */
  function StartLearning(selected: seq<string>): (url: Option<string>)
    ensures selected == [] <==> url.None?
    ensures url.Some? ==> url.value == "/learn?levels=" + Join(selected, ",")
  {
    if selected == [] then None else Some("/learn?levels=" + Join(selected, ","))
  }

  /** The page's state: the selected levels, the level being generated (if
      any), and the store the selection is persisted to. */
  class HomePage {
    var selectedLevels: seq<string>
    var generatingLevel: Option<string>
    const store: Store

    /** The first render: nothing selected, nothing generating. */
    constructor (store: Store)
      ensures this.store == store && selectedLevels == [] && generatingLevel.None?
    {
      this.store := store;
      selectedLevels := [];
      generatingLevel := None;
    }

    /** The mount effect: the saved preferred levels become the selection. */
    method LoadPreferences()
      modifies this
      ensures selectedLevels == store.settings.preferredLevels
      ensures generatingLevel == old(generatingLevel)
    {
      selectedLevels := store.settings.preferredLevels;
    }

    /** handleLevelToggle: the new selection is computed, persisted and kept. */
    method HandleLevelToggle(level: string)
      modifies this, store
      ensures selectedLevels == ToggleLevel(old(selectedLevels), level)
      ensures store.settings == old(store.settings).(preferredLevels := selectedLevels)
      ensures store.progress == old(store.progress) && store.stats == old(store.stats)
      ensures generatingLevel == old(generatingLevel)
    {
      var newLevels := ToggleLevel(selectedLevels, level);
      store.UpdatePreferredLevels(newLevels);
      selectedLevels := newLevels;
    }

    /** The start of handleGenerateAI: refused while a level is generating or when
        the user declines; otherwise the level is marked as generating. */
    method BeginGenerate(level: string, confirmed: bool) returns (started: bool)
      modifies this
      ensures started <==> !Truthy(old(generatingLevel)) && confirmed
      ensures started ==> generatingLevel == Some(level)
      ensures !started ==> generatingLevel == old(generatingLevel)
      ensures selectedLevels == old(selectedLevels)
    {
      if Truthy(generatingLevel) {
        return false;
      }
      if !confirmed {
        return false;
      }
      generatingLevel := Some(level);
      started := true;
    }

    /** The `finally` of handleGenerateAI, reached on success and on failure alike. */
    method FinishGenerate()
      modifies this
      ensures generatingLevel.None?
      ensures selectedLevels == old(selectedLevels)
    {
      generatingLevel := None;
    }
  }
}
