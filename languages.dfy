/**
 * The language table of GetSteamReviews.py: the long names Steam's review
 * endpoint understands, the short codes the command line also accepts, the
 * dictionary `dict(zip(lang_short, lang_long))` built from them, and the
 * normalisation that turns an accepted `--language` value into what goes
 * into the request URL.
 */
module Languages {

  /** `lang_long`: 30 entries, the last of which is "all" (the spelling "ukranian" is the script's own). */
  const LangLong: seq<string> := ["arabic", "bulgarian", "schinese", "tchinese", "czech", "danish", "dutch",
    "english", "finnish", "french", "german", "greek", "hungarian", "italian", "japanese", "koreana",
    "norwegian", "polish", "portuguese", "brazilian", "romanian", "russian", "spanish", "latam", "swedish",
    "thai", "turkish", "ukranian", "vietnamese", "all"]

  /** `lang_short`: 29 entries, one fewer than `lang_long`. */
  const LangShort: seq<string> := ["ar", "bg", "zh-CN", "zh-TW", "cs", "da", "nl", "en", "fi", "fr", "de",
    "el", "hu", "it", "ja", "ko", "no", "pl", "pt", "pt-BR", "ro", "ru", "es", "es-419", "sv", "th", "tr",
    "uk", "vn"]

  /** Python's `zip`: pairs up elements position by position and stops at the shorter input. */
  function Zip<A, B>(a: seq<A>, b: seq<B>): (z: seq<(A, B)>)
    ensures |z| == if |a| < |b| then |a| else |b|
    ensures forall i :: 0 <= i < |z| ==> z[i] == (a[i], b[i])
  {
    if a == [] || b == [] then [] else [(a[0], b[0])] + Zip(a[1..], b[1..])
  }

  /** Python's `dict(pairs)`: inserts the pairs in order, so a later pair with the same key wins. */
  function DictOf<K, V>(pairs: seq<(K, V)>): (d: map<K, V>)
    ensures pairs != [] ==> pairs[|pairs| - 1].0 in d && d[pairs[|pairs| - 1].0] == pairs[|pairs| - 1].1
  {
    if pairs == [] then map[]
    else DictOf(pairs[..|pairs| - 1])[pairs[|pairs| - 1].0 := pairs[|pairs| - 1].1]
  }

  predicate DistinctKeys<K(==), V>(pairs: seq<(K, V)>) {
    forall i, j :: 0 <= i < j < |pairs| ==> pairs[i].0 != pairs[j].0
  }

  /** The keys of `dict(pairs)` are exactly the first components of the pairs. */
  lemma {:induction false} DictOfKeys<K, V>(pairs: seq<(K, V)>, k: K)
    ensures k in DictOf(pairs) <==> exists i :: 0 <= i < |pairs| && pairs[i].0 == k
  {
    if pairs != [] {
      var init := pairs[..|pairs| - 1];
      DictOfKeys(init, k);
      if k in DictOf(init) {
        var i :| 0 <= i < |init| && init[i].0 == k;
        assert pairs[i].0 == k;
      }
      if exists i :: 0 <= i < |pairs| && pairs[i].0 == k {
        var i :| 0 <= i < |pairs| && pairs[i].0 == k;
        if i < |init| {
          assert init[i].0 == k;
        }
      }
    }
  }

  /** When no key repeats, `dict(pairs)` maps each key to the value it was paired with. */
  lemma {:induction false} DictOfLookup<K, V>(pairs: seq<(K, V)>, i: nat)
    requires DistinctKeys(pairs)
    requires i < |pairs|
    ensures pairs[i].0 in DictOf(pairs) && DictOf(pairs)[pairs[i].0] == pairs[i].1
  {
    var init := pairs[..|pairs| - 1];
    if i < |init| {
      assert init[i] == pairs[i];
      assert DistinctKeys(init) by {
        forall a, b | 0 <= a < b < |init| ensures init[a].0 != init[b].0 {
          assert init[a] == pairs[a] && init[b] == pairs[b];
        }
      }
      DictOfLookup(init, i);
      assert pairs[i].0 != pairs[|pairs| - 1].0;
    }
  }

  /** `language_dict`. */
  function LanguageDict(): map<string, string> {
    DictOf(Zip(LangShort, LangLong))
  }

  /** Zipping keeps the keys of the first sequence, so distinct codes give distinct keys. */
  lemma ZipDistinct<A, B>(a: seq<A>, b: seq<B>)
    requires forall i, j :: 0 <= i < j < |a| ==> a[i] != a[j]
    ensures DistinctKeys(Zip(a, b))
  {
    var z := Zip(a, b);
    forall i, j | 0 <= i < j < |z| ensures z[i].0 != z[j].0 {
      assert z[i].0 == a[i] && z[j].0 == a[j];
    }
  }

  /** Every short code is a key of the zipped dictionary, and nothing else is. */
  lemma ZipKeys<A, B>(a: seq<A>, b: seq<B>, k: A)
    requires |a| <= |b|
    ensures k in DictOf(Zip(a, b)) <==> k in a
  {
    var z := Zip(a, b);
    DictOfKeys(z, k);
    if k in a {
      var i :| 0 <= i < |a| && a[i] == k;
      assert z[i].0 == k;
    }
    if k in DictOf(z) {
      var i :| 0 <= i < |z| && z[i].0 == k;
      assert a[i] == k;
    }
  }

  lemma ShortCodesDistinct()
    ensures DistinctKeys(Zip(LangShort, LangLong))
  {
    assert forall i, j :: 0 <= i < j < |LangShort| ==> LangShort[i] != LangShort[j];
    ZipDistinct(LangShort, LangLong);
  }

  /** `zip` leaves "all", the thirtieth long name, without a short code: the keys are exactly `lang_short`. */
  lemma LanguageDictKeys(k: string)
    ensures k in LanguageDict() <==> k in LangShort
  {
    ZipKeys(LangShort, LangLong, k);
  }

  /** The short code at index i is translated to the long name at the same index. */
  lemma LanguageDictAt(i: nat)
    requires i < |LangShort|
    ensures LangShort[i] in LanguageDict() && LanguageDict()[LangShort[i]] == LangLong[i]
  {
    ShortCodesDistinct();
    DictOfLookup(Zip(LangShort, LangLong), i);
  }

  /**
   * GetSteamReviews.py:64-67: a value found in `lang_short` is replaced by
   * its dictionary entry, anything else is passed through unchanged.
   */
  function Normalise(language: string): (r: string)
    ensures language !in LangShort ==> r == language
    ensures forall i :: 0 <= i < |LangShort| && LangShort[i] == language ==> r == LangLong[i]
  {
    if language in LangShort then
      LanguageDictKeys(language);
      ShortLookup(language);
      LanguageDict()[language]
    else language
  }

  lemma ShortLookup(language: string)
    requires language in LangShort
    ensures language in LanguageDict()
    ensures forall i :: 0 <= i < |LangShort| && LangShort[i] == language ==> LanguageDict()[language] == LangLong[i]
  {
    LanguageDictKeys(language);
    forall i | 0 <= i < |LangShort| && LangShort[i] == language
      ensures LanguageDict()[language] == LangLong[i]
    {
      LanguageDictAt(i);
    }
  }

  /**
   * Every value the `--language` option accepts (`lang_long + lang_short`)
   * normalises to one of the long names, "all" included.
   */
  lemma AcceptedLanguageIsLong(language: string)
    requires language in LangLong + LangShort
    ensures Normalise(language) in LangLong
  {
    if language in LangShort {
      var i :| 0 <= i < |LangShort| && LangShort[i] == language;
      assert Normalise(language) == LangLong[i];
    } else {
      assert language in LangLong;
    }
  }
}
