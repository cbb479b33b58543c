/**
 * GetSteamReviews.py:118-159: each raw review becomes one output row, and
 * when translation is requested every row whose language is not
 * "english" has its body replaced by the translator's output. The
 * translator (DeepL, reached with the API key, target "EN-GB") and the
 * local-time formatting of timestamps are parameters of the model.
 */
module Rows {
  import opened Wrappers
  import opened Retrieval

  /** The dictionary appended to `review_list`, field for field. */
  datatype Row = Row(
    playtime: real,             // hours
    language: string,
    body: string,
    timeCreated: string,
    recommend: bool,
    weightedVoteScore: real)

  /** GetSteamReviews.py:122: `playtime_at_review / 60`, with exact division in place of floating point. */
  function PlaytimeHours(minutes: int): (hours: real)
    ensures hours * 60.0 == minutes as real
    ensures minutes == 120 ==> hours == 2.0
    ensures minutes == 90 ==> hours == 1.5
  {
    minutes as real / 60.0
  }

  /** GetSteamReviews.py:122-131 for one review; `formatTime` stands for `str(datetime.fromtimestamp(t))`. */
  function Project(r: Review, formatTime: int -> string): (row: Row)
    ensures row.playtime * 60.0 == r.playtimeAtReview as real
    ensures row.language == r.language && row.body == r.review && row.timeCreated == formatTime(r.timestampCreated)
    ensures row.recommend == r.votedUp && row.weightedVoteScore == r.weightedVoteScore
  {
    Row(PlaytimeHours(r.playtimeAtReview), r.language, r.review, formatTime(r.timestampCreated),
        r.votedUp, r.weightedVoteScore)
  }

  /** GetSteamReviews.py:118-131: one row per raw review, in the same order, each carrying that review's fields. */
  method ProjectAll(raw: seq<Review>, formatTime: int -> string) returns (rows: seq<Row>)
    ensures |rows| == |raw|
    ensures forall i :: 0 <= i < |raw| ==>
      rows[i].playtime * 60.0 == raw[i].playtimeAtReview as real &&
      rows[i].language == raw[i].language && rows[i].body == raw[i].review &&
      rows[i].timeCreated == formatTime(raw[i].timestampCreated) &&
      rows[i].recommend == raw[i].votedUp && rows[i].weightedVoteScore == raw[i].weightedVoteScore
  {
    rows := [];
    for i := 0 to |raw|
      invariant |rows| == i
      invariant forall k :: 0 <= k < i ==> rows[k] == Project(raw[k], formatTime)
    {
      rows := rows + [Project(raw[i], formatTime)];
    }
  }

  predicate IsEnglish(row: Row) {
    row.language == "english"
  }

  /** GetSteamReviews.py:142: `sum(x.get("language") != "english" for x in review_list)`. */
  function NonEnglishCount(rows: seq<Row>): (n: nat)
    ensures n <= |rows|
  {
    if rows == [] then 0
    else NonEnglishCount(rows[..|rows| - 1]) + (if IsEnglish(rows[|rows| - 1]) then 0 else 1)
  }

  /** GetSteamReviews.py:144-145: the summed body lengths of the non-English rows. */
  function NonEnglishChars(rows: seq<Row>): nat {
    if rows == [] then 0
    else NonEnglishChars(rows[..|rows| - 1]) + (if IsEnglish(rows[|rows| - 1]) then 0 else |rows[|rows| - 1].body|)
  }

  /** GetSteamReviews.py:152-159 for one row: only a non-English row is sent to the translator. */
  function TranslateRow(row: Row, apiKey: string, translate: (string, string) -> string): (t: Row)
    ensures t == row.(body := t.body)
    ensures IsEnglish(row) ==> t == row
    ensures !IsEnglish(row) ==> t.body == translate(apiKey, row.body)
  {
    if IsEnglish(row) then row else row.(body := translate(apiKey, row.body))
  }

  function TranslateAll(rows: seq<Row>, apiKey: string, translate: (string, string) -> string): (ts: seq<Row>)
    ensures |ts| == |rows|
  {
    if rows == [] then []
    else TranslateAll(rows[..|rows| - 1], apiKey, translate) + [TranslateRow(rows[|rows| - 1], apiKey, translate)]
  }

  /**
   * Translation keeps the rows and their order; it leaves every English
   * row as it was, and of a non-English row it changes the body only, to
   * the translator's output for that body.
   */
  lemma {:induction false} TranslateAllAt(rows: seq<Row>, apiKey: string, translate: (string, string) -> string, i: nat)
    requires i < |rows|
    ensures |TranslateAll(rows, apiKey, translate)| == |rows|
    ensures IsEnglish(rows[i]) ==> TranslateAll(rows, apiKey, translate)[i] == rows[i]
    ensures !IsEnglish(rows[i]) ==>
      TranslateAll(rows, apiKey, translate)[i] == rows[i].(body := translate(apiKey, rows[i].body))
    decreases |rows|
  {
    var init := rows[..|rows| - 1];
    if i < |init| {
      TranslateAllAt(init, apiKey, translate, i);
    } else if init != [] {
      TranslateAllAt(init, apiKey, translate, 0);
    }
  }

  /** Translation changes no language, so the rows it would translate are the same afterwards. */
  lemma {:induction false} TranslateAllKeepsCount(rows: seq<Row>, apiKey: string, translate: (string, string) -> string)
    ensures NonEnglishCount(TranslateAll(rows, apiKey, translate)) == NonEnglishCount(rows)
  {
    if rows != [] {
      var t := TranslateAll(rows, apiKey, translate);
      var init := rows[..|rows| - 1];
      TranslateAllKeepsCount(init, apiKey, translate);
      assert t[..|t| - 1] == TranslateAll(init, apiKey, translate);
    }
  }

  /** `non_english` is zero exactly when every row is English, and then no characters are counted either. */
  lemma {:induction false} NonEnglishCountZero(rows: seq<Row>)
    ensures NonEnglishCount(rows) == 0 <==> forall i :: 0 <= i < |rows| ==> IsEnglish(rows[i])
    ensures NonEnglishCount(rows) == 0 ==> NonEnglishChars(rows) == 0
    ensures NonEnglishCount(rows) <= |rows|
  {
    if rows != [] {
      var init := rows[..|rows| - 1];
      NonEnglishCountZero(init);
      assert forall i :: 0 <= i < |init| ==> init[i] == rows[i];
    }
  }

  /** One more row extends the counts and the translation by that row. */
  lemma TranslateStep(rows: seq<Row>, i: nat, apiKey: string, translate: (string, string) -> string)
    requires i < |rows|
    ensures NonEnglishCount(rows[..i + 1]) == NonEnglishCount(rows[..i]) + (if IsEnglish(rows[i]) then 0 else 1)
    ensures NonEnglishChars(rows[..i + 1]) == NonEnglishChars(rows[..i]) + (if IsEnglish(rows[i]) then 0 else |rows[i].body|)
    ensures TranslateAll(rows[..i + 1], apiKey, translate)
         == TranslateAll(rows[..i], apiKey, translate) + [TranslateRow(rows[i], apiKey, translate)]
  {
    assert rows[..i + 1][..i] == rows[..i];
  }

  /** What the translation step did: nothing, stopped for want of an API key, or the totals and final counters. */
  datatype TranslationRun =
    | NotRequested
    | MissingApiKey
    | Done(nonEnglish: nat, totalCharacters: nat, count: nat, characters: nat)

  /**
   * GetSteamReviews.py:133-159: unless `--translate` was given, or without
   * an API key, nothing is translated; otherwise every non-English row's
   * body is translated in place, and the progress counters end at exactly
   * the totals announced beforehand.
   */
  method TranslateReviews(rows: array<Row>, requested: bool, apiKey: Option<string>,
                          translate: (string, string) -> string)
    returns (run: TranslationRun)
    modifies rows
    ensures !requested ==> run == NotRequested && rows[..] == old(rows[..])
    ensures requested && apiKey.None? ==> run == MissingApiKey && rows[..] == old(rows[..])
    ensures requested && apiKey.Some? ==>
      run == Done(NonEnglishCount(old(rows[..])), NonEnglishChars(old(rows[..])),
                  NonEnglishCount(old(rows[..])), NonEnglishChars(old(rows[..])))
    ensures requested && apiKey.Some? ==> rows[..] == TranslateAll(old(rows[..]), apiKey.value, translate)
  {
    if !requested {
      return NotRequested;
    }
    if apiKey == None {
      return MissingApiKey;
    }
    var key := apiKey.value;
    var nonEnglish := NonEnglishCount(rows[..]);
    var totalCharacters := NonEnglishChars(rows[..]);
    ghost var before := rows[..];
    var count, characters := 0, 0;
    for i := 0 to rows.Length
      invariant count == NonEnglishCount(before[..i])
      invariant characters == NonEnglishChars(before[..i])
      invariant rows[..i] == TranslateAll(before[..i], key, translate)
      invariant forall j :: i <= j < rows.Length ==> rows[j] == before[j]
    {
      TranslateStep(before, i, key, translate);
      ghost var done := rows[..i];
      if rows[i].language != "english" {
        count := count + 1;
        characters := characters + |rows[i].body|;
        rows[i] := rows[i].(body := translate(key, rows[i].body));
      }
      assert rows[i] == TranslateRow(before[i], key, translate);
      assert rows[..i + 1] == done + [rows[i]];
    }
    assert before[..rows.Length] == before;
    run := Done(nonEnglish, totalCharacters, count, characters);
  }
}
