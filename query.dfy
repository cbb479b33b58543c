/**
 * The request URL of GetSteamReviews.py:69-87: the fixed base, the
 * application id, then the query parameters in a fixed order, and the
 * cursor parameter that is appended to it for each request.
 */
module Query {
  import opened Wrappers
  import opened Decimal
  import Languages

  /** `--filter`, one of `filter_choices`. */
  datatype Filter = Recent | Updated | All {
    function Name(): string {
      match this
      case Recent => "recent"
      case Updated => "updated"
      case All => "all"
    }

    /** GetSteamReviews.py:91: only "recent" and "updated" follow cursors. */
    predicate FollowsCursor()
      ensures FollowsCursor() <==> Name() == "recent" || Name() == "updated"
    {
      Recent? || Updated?
    }
  }

  /** `--review_type`, one of `review_type_choices`. */
  datatype ReviewType = AllReviews | Positive | Negative {
    function Name(): string {
      match this
      case AllReviews => "all"
      case Positive => "positive"
      case Negative => "negative"
    }
  }

  /** `--purchase_type`, one of `purchase_type_choices`. */
  datatype PurchaseType = AllPurchases | NonSteamPurchase | Steam {
    function Name(): string {
      match this
      case AllPurchases => "all"
      case NonSteamPurchase => "non_steam_purchase"
      case Steam => "steam"
    }
  }

  /** `--num_per_page` is restricted to `range(101)`. */
  type PageSize = n: int | 0 <= n <= 100

  /** The parsed options that go into the URL; `--batches` is parsed but never used, so it is absent. */
  datatype Config = Config(
    appId: string,
    filter: Filter,
    language: string,
    dayRange: Option<int>,
    reviewType: ReviewType,
    purchaseType: PurchaseType,
    numPerPage: PageSize)

  const BaseUrl: string := "https://store.steampowered.com/appreviews/"

  /** GetSteamReviews.py:87: the first request of every run asks for the start of the results. */
  const InitialCursor: string := "&cursor=*"

  /** GetSteamReviews.py:107: the next request carries the server's cursor, run through `quote`. */
  function NextCursor(quote: string -> string, token: string): (c: string)
    ensures |c| >= |"&cursor="| && c[..|"&cursor="|] == "&cursor="
    ensures c[|"&cursor="|..] == quote(token)
  {
    "&cursor=" + quote(token)
  }

  /** The names of the query parameters the script writes after `?json=1`. */
  datatype ParamName = FilterName | LanguageName | DayRangeName | ReviewTypeName | PurchaseTypeName | NumPerPageName {
    function Key(): string {
      match this
      case FilterName => "filter"
      case LanguageName => "language"
      case DayRangeName => "day_range"
      case ReviewTypeName => "review_type"
      case PurchaseTypeName => "purchase_type"
      case NumPerPageName => "num_per_page"
    }
  }

  /** One query parameter `&name=value`. */
  datatype Param = Param(name: ParamName, value: string)

  function Names(ps: seq<Param>): (ns: seq<ParamName>)
    ensures |ns| == |ps|
  {
    seq(|ps|, i requires 0 <= i < |ps| => ps[i].name)
  }

  lemma NamesCons(ps: seq<Param>)
    requires ps != []
    ensures Names(ps) == [ps[0].name] + Names(ps[1..])
  {
    assert forall i :: 0 <= i < |ps| - 1 ==> ps[1..][i] == ps[i + 1];
  }

  /** The value of the first parameter with the given name, as a server reading the query would find it. */
  function Lookup(ps: seq<Param>, name: ParamName): Option<string>
  {
    if ps == [] then None
    else if ps[0].name == name then Some(ps[0].value)
    else Lookup(ps[1..], name)
  }

  /** A parameter that was never written is not found. */
  lemma {:induction false} LookupAbsent(ps: seq<Param>, name: ParamName)
    ensures Lookup(ps, name) == None <==> name !in Names(ps)
  {
    if ps != [] {
      LookupAbsent(ps[1..], name);
      NamesCons(ps);
    }
  }

  /** One parameter as the f-strings of GetSteamReviews.py:74-85 write it. */
  function Field(key: string, value: string): string {
    "&" + key + "=" + value
  }

  /** The parameters one after another, each as `&name=value`. */
  function Render(ps: seq<Param>): string {
    if ps == [] then "" else Field(ps[0].name.Key(), ps[0].value) + Render(ps[1..])
  }

  /** A name found in the front part is looked up there; otherwise the lookup continues into the rest. */
  lemma {:induction false} LookupAppend(a: seq<Param>, b: seq<Param>, name: ParamName)
    ensures Lookup(a + b, name) == if Lookup(a, name).Some? then Lookup(a, name) else Lookup(b, name)
  {
    if a == [] {
      assert a + b == b;
    } else {
      assert (a + b)[0] == a[0];
      assert (a + b)[1..] == a[1..] + b;
      LookupAppend(a[1..], b, name);
    }
  }

  /** str(x) of a Python list of integers, e.g. "[7]" or "[1, 2]". */
  function ListRepr(xs: seq<int>): string {
    "[" + JoinInts(xs) + "]"
  }

  function JoinInts(xs: seq<int>): string {
    if xs == [] then ""
    else if |xs| == 1 then IntToString(xs[0])
    else IntToString(xs[0]) + ", " + JoinInts(xs[1..])
  }

  /**
   * GetSteamReviews.py:79 as written: `--day_range` is declared with
   * `nargs=1`, so the option holds the list `[d]` and the f-string renders
   * that list, brackets included.
   */
  function DayRangeParamAsWritten(d: int): (p: Param)
    ensures p.name == DayRangeName && ParseInt(p.value) == None
  {
    Param(DayRangeName, ListRepr([d]))
  }

  /** Whatever the day count, the value written as above is not an integer at all. */
  lemma DayRangeAsWrittenDiffers(d: int)
    ensures DayRangeParamAsWritten(d) != DayRangeParam(d)
    ensures DayRangeParamAsWritten(7).value == "[7]"
  {
    IntToStringRoundTrip(d);
    assert NatToString(7) == "7";
  }

  /** The day-range parameter as intended: the number of days itself. */
  function DayRangeParam(d: int): (p: Param)
    ensures p.name == DayRangeName && ParseInt(p.value) == Some(d)
  {
    IntToStringRoundTrip(d);
    Param(DayRangeName, IntToString(d))
  }

  /**
   * GetSteamReviews.py:72-85: the query parameters after `?json=1`, in the
   * order they are appended, with the day range as intended (the number of
   * days itself).
   */
  function Params(c: Config): seq<Param> {
    QueryParams(c, Languages.Normalise(c.language), DayParams(c))
  }

  /** GetSteamReviews.py:72-85 as written: the day range is the repr of a one-element list. */
  function ParamsAsWritten(c: Config): seq<Param> {
    QueryParams(c, Languages.Normalise(c.language), DayParamsAsWritten(c))
  }

  /** The parameters around a given language value and day-range part. */
  function QueryParams(c: Config, language: string, day: seq<Param>): seq<Param> {
    FrontParams(c, language) + day + BackParams(c)
  }

  /** The parameters before the optional day range, the day range if given, and those after it. */
  function FrontParams(c: Config, language: string): seq<Param> {
    [Param(FilterName, c.filter.Name()), Param(LanguageName, language)]
  }

  function DayParams(c: Config): seq<Param> {
    if c.dayRange.Some? then [DayRangeParam(c.dayRange.value)] else []
  }

  function DayParamsAsWritten(c: Config): seq<Param> {
    if c.dayRange.Some? then [DayRangeParamAsWritten(c.dayRange.value)] else []
  }

  function BackParams(c: Config): seq<Param> {
    [Param(ReviewTypeName, c.reviewType.Name()),
     Param(PurchaseTypeName, c.purchaseType.Name()),
     Param(NumPerPageName, IntToString(c.numPerPage))]
  }

  /** A day-range part holds nothing but (at most) the day range. */
  predicate DayOnly(day: seq<Param>) {
    day == [] || (|day| == 1 && day[0].name == DayRangeName)
  }

  lemma QueryNames(c: Config, language: string, day: seq<Param>)
    ensures Names(QueryParams(c, language, day))
         == [FilterName, LanguageName] + Names(day) + [ReviewTypeName, PurchaseTypeName, NumPerPageName]
  {
    var front := FrontParams(c, language);
    NamesAppend(front + day, BackParams(c));
    NamesAppend(front, day);
    assert Names(front) == [FilterName, LanguageName];
    assert Names(BackParams(c)) == [ReviewTypeName, PurchaseTypeName, NumPerPageName];
  }

  /**
   * filter and language come first, then day_range when it is given, then
   * the other three; the same holds of the parameters as written.
   */
  lemma ParamOrder(c: Config)
    ensures Names(Params(c)) == [FilterName, LanguageName] + (if c.dayRange.Some? then [DayRangeName] else [])
                                + [ReviewTypeName, PurchaseTypeName, NumPerPageName]
    ensures Names(ParamsAsWritten(c)) == Names(Params(c))
  {
    var language := Languages.Normalise(c.language);
    QueryNames(c, language, DayParams(c));
    QueryNames(c, language, DayParamsAsWritten(c));
    DayParts(c);
  }

  /** Both day-range parts are the one day_range parameter when a day count is given, and empty otherwise. */
  lemma DayParts(c: Config)
    ensures Names(DayParams(c)) == if c.dayRange.Some? then [DayRangeName] else []
    ensures Names(DayParamsAsWritten(c)) == Names(DayParams(c))
    ensures Render(DayParams(c)) == if c.dayRange.Some? then Field("day_range", IntToString(c.dayRange.value)) else ""
    ensures Render(DayParamsAsWritten(c)) == if c.dayRange.Some? then Field("day_range", ListRepr([c.dayRange.value])) else ""
  {
    if c.dayRange.Some? {
      assert DayParams(c)[1..] == [];
      assert DayParamsAsWritten(c)[1..] == [];
    }
  }

  lemma NamesAppend(a: seq<Param>, b: seq<Param>)
    ensures Names(a + b) == Names(a) + Names(b)
  {
    var n := Names(a + b);
    var m := Names(a) + Names(b);
    forall i | 0 <= i < |n| ensures n[i] == m[i] {
      if i < |a| {
        assert (a + b)[i] == a[i];
      } else {
        assert (a + b)[i] == b[i - |a|];
      }
    }
  }

  /**
   * GetSteamReviews.py:70-85: the base, the application id and `?json=1`,
   * followed by every parameter of `Params` as `&name=value`.
   */
  function RequestUrl(c: Config): string {
    UrlWith(c, DayParams(c))
  }

  /** GetSteamReviews.py:70-85 as written, with `ParamsAsWritten`. */
  function RequestUrlAsWritten(c: Config): string {
    UrlWith(c, DayParamsAsWritten(c))
  }

  function UrlWith(c: Config, day: seq<Param>): string {
    BaseUrl + c.appId + "?json=1" + Render(QueryParams(c, Languages.Normalise(c.language), day))
  }

  /** The URL text, parameter by parameter, for a given day-range part. */
  lemma UrlText(c: Config, day: seq<Param>)
    ensures UrlWith(c, day)
         == BaseUrl + c.appId + "?json=1"
            + (Field("filter", c.filter.Name()) + Field("language", Languages.Normalise(c.language)))
            + Render(day)
            + (Field("review_type", c.reviewType.Name()) + Field("purchase_type", c.purchaseType.Name())
               + Field("num_per_page", IntToString(c.numPerPage)))
  {
    RenderQuery(c, Languages.Normalise(c.language), day);
    Regroup(BaseUrl + c.appId + "?json=1",
            Field("filter", c.filter.Name()) + Field("language", Languages.Normalise(c.language)),
            Render(day),
            Field("review_type", c.reviewType.Name()) + Field("purchase_type", c.purchaseType.Name())
            + Field("num_per_page", IntToString(c.numPerPage)));
  }

  lemma Regroup(p: string, a: string, d: string, e: string)
    ensures p + (a + d + e) == p + a + d + e
  {
  }

  lemma RenderQuery(c: Config, language: string, day: seq<Param>)
    ensures Render(QueryParams(c, language, day))
         == (Field("filter", c.filter.Name()) + Field("language", language))
            + Render(day)
            + (Field("review_type", c.reviewType.Name()) + Field("purchase_type", c.purchaseType.Name())
               + Field("num_per_page", IntToString(c.numPerPage)))
  {
    var front, back := FrontParams(c, language), BackParams(c);
    RenderAppend(front + day, back);
    RenderAppend(front, day);
    RenderTwo(front[0], front[1]);
    RenderThree(back[0], back[1], back[2]);
  }

  lemma RenderTwo(p: Param, q: Param)
    ensures Render([p, q]) == Field(p.name.Key(), p.value) + Field(q.name.Key(), q.value)
  {
    assert [p, q][1..] == [q];
    assert [q][1..] == [];
    assert Render([q]) == Field(q.name.Key(), q.value);
  }

  lemma RenderThree(p: Param, q: Param, r: Param)
    ensures Render([p, q, r]) == Field(p.name.Key(), p.value) + Field(q.name.Key(), q.value) + Field(r.name.Key(), r.value)
  {
    assert [p, q, r][1..] == [q, r];
    RenderTwo(q, r);
  }

  /**
   * The request URL names the filter, the long language name, the day count
   * when one is given, the review and purchase types and the page size, in
   * that order; as written, the day count appears inside brackets.
   */
  lemma RequestUrlText(c: Config)
    ensures RequestUrl(c)
         == BaseUrl + c.appId + "?json=1"
            + (Field("filter", c.filter.Name()) + Field("language", Languages.Normalise(c.language)))
            + (if c.dayRange.Some? then Field("day_range", IntToString(c.dayRange.value)) else "")
            + (Field("review_type", c.reviewType.Name()) + Field("purchase_type", c.purchaseType.Name())
               + Field("num_per_page", IntToString(c.numPerPage)))
    ensures RequestUrlAsWritten(c)
         == BaseUrl + c.appId + "?json=1"
            + (Field("filter", c.filter.Name()) + Field("language", Languages.Normalise(c.language)))
            + (if c.dayRange.Some? then Field("day_range", ListRepr([c.dayRange.value])) else "")
            + (Field("review_type", c.reviewType.Name()) + Field("purchase_type", c.purchaseType.Name())
               + Field("num_per_page", IntToString(c.numPerPage)))
  {
    UrlText(c, DayParams(c));
    UrlText(c, DayParamsAsWritten(c));
    DayParts(c);
  }

  lemma {:induction false} RenderAppend(a: seq<Param>, b: seq<Param>)
    ensures Render(a + b) == Render(a) + Render(b)
  {
    if a == [] {
      assert a + b == b;
    } else {
      assert (a + b)[0] == a[0];
      assert (a + b)[1..] == a[1..] + b;
      RenderAppend(a[1..], b);
    }
  }

  /** With the defaults of the command line ("all" language, no day range, 20 per page) the parameters are these. */
  lemma DefaultParams(appId: string)
    ensures Params(Config(appId, All, "all", None, AllReviews, Steam, 20))
         == [Param(FilterName, "all"), Param(LanguageName, "all"), Param(ReviewTypeName, "all"),
             Param(PurchaseTypeName, "steam"), Param(NumPerPageName, "20")]
  {
    DefaultLanguage();
    DefaultPageSize();
    DefaultQuery(appId);
  }

  /** The default `--language` value "all" is not a short code, so it is sent as it is. */
  lemma DefaultLanguage()
    ensures Languages.Normalise("all") == "all"
  {
    assert "all" !in Languages.LangShort;
  }

  lemma DefaultPageSize()
    ensures IntToString(20) == "20"
  {
    assert NatToString(2) == "2";
  }

  lemma DefaultQuery(appId: string)
    ensures QueryParams(Config(appId, All, "all", None, AllReviews, Steam, 20), "all", [])
         == [Param(FilterName, "all"), Param(LanguageName, "all"), Param(ReviewTypeName, "all"),
             Param(PurchaseTypeName, "steam"), Param(NumPerPageName, IntToString(20))]
  {
  }

  lemma LookupParts(c: Config, language: string, day: seq<Param>, name: ParamName)
    ensures Lookup(QueryParams(c, language, day), name)
         == if Lookup(FrontParams(c, language), name).Some? then Lookup(FrontParams(c, language), name)
            else if Lookup(day, name).Some? then Lookup(day, name)
            else Lookup(BackParams(c), name)
  {
    LookupAppend(FrontParams(c, language) + day, BackParams(c), name);
    LookupAppend(FrontParams(c, language), day, name);
  }

  lemma LookupTwo(p: Param, q: Param, name: ParamName)
    ensures Lookup([p, q], name)
         == if p.name == name then Some(p.value) else if q.name == name then Some(q.value) else None
  {
    assert [q][1..] == [];
    assert Lookup([q], name) == if q.name == name then Some(q.value) else None;
    assert [p, q][1..] == [q];
  }

  lemma LookupThree(p: Param, q: Param, r: Param, name: ParamName)
    ensures Lookup([p, q, r], name)
         == if p.name == name then Some(p.value) else Lookup([q, r], name)
  {
    assert [p, q, r][1..] == [q, r];
  }

  lemma LookupFront(c: Config, language: string, day: seq<Param>)
    ensures Lookup(QueryParams(c, language, day), FilterName) == Some(c.filter.Name())
    ensures Lookup(QueryParams(c, language, day), LanguageName) == Some(language)
  {
    LookupTwo(Param(FilterName, c.filter.Name()), Param(LanguageName, language), FilterName);
    LookupTwo(Param(FilterName, c.filter.Name()), Param(LanguageName, language), LanguageName);
    LookupParts(c, language, day, FilterName);
    LookupParts(c, language, day, LanguageName);
  }

  lemma LookupDay(c: Config, language: string, day: seq<Param>)
    requires DayOnly(day)
    ensures Lookup(QueryParams(c, language, day), DayRangeName) == if day == [] then None else Some(day[0].value)
  {
    LookupTwo(Param(FilterName, c.filter.Name()), Param(LanguageName, language), DayRangeName);
    LookupBackAt(c, DayRangeName);
    LookupParts(c, language, day, DayRangeName);
  }

  /** Looking a name up among the three parameters after the day range. */
  lemma LookupBackAt(c: Config, name: ParamName)
    ensures Lookup(BackParams(c), name)
         == if name == ReviewTypeName then Some(c.reviewType.Name())
            else if name == PurchaseTypeName then Some(c.purchaseType.Name())
            else if name == NumPerPageName then Some(IntToString(c.numPerPage))
            else None
  {
    var p, q, r := Param(ReviewTypeName, c.reviewType.Name()), Param(PurchaseTypeName, c.purchaseType.Name()),
                   Param(NumPerPageName, IntToString(c.numPerPage));
    LookupThree(p, q, r, name);
    LookupTwo(q, r, name);
  }

  lemma LookupBack(c: Config, language: string, day: seq<Param>)
    requires DayOnly(day)
    ensures Lookup(QueryParams(c, language, day), ReviewTypeName) == Some(c.reviewType.Name())
    ensures Lookup(QueryParams(c, language, day), PurchaseTypeName) == Some(c.purchaseType.Name())
    ensures Lookup(QueryParams(c, language, day), NumPerPageName) == Some(IntToString(c.numPerPage))
  {
    var p, q := Param(FilterName, c.filter.Name()), Param(LanguageName, language);
    LookupTwo(p, q, ReviewTypeName);
    LookupTwo(p, q, PurchaseTypeName);
    LookupTwo(p, q, NumPerPageName);
    if day != [] {
      assert day[1..] == [];
    }
    LookupBackAt(c, ReviewTypeName);
    LookupBackAt(c, PurchaseTypeName);
    LookupBackAt(c, NumPerPageName);
    LookupParts(c, language, day, ReviewTypeName);
    LookupParts(c, language, day, PurchaseTypeName);
    LookupParts(c, language, day, NumPerPageName);
  }

  /**
   * What a server reads back from the parameters: each option's value, the
   * language in its long form, `day_range` present exactly when it was
   * given, and the numbers as the integers they came from.
   */
  lemma ParamValues(c: Config)
    ensures Lookup(Params(c), FilterName) == Some(c.filter.Name())
    ensures Lookup(Params(c), LanguageName) == Some(Languages.Normalise(c.language))
    ensures Lookup(Params(c), DayRangeName).Some? <==> c.dayRange.Some?
    ensures c.dayRange.Some? ==> ParseInt(Lookup(Params(c), DayRangeName).value) == Some(c.dayRange.value)
    ensures Lookup(Params(c), ReviewTypeName) == Some(c.reviewType.Name())
    ensures Lookup(Params(c), PurchaseTypeName) == Some(c.purchaseType.Name())
    ensures Lookup(Params(c), NumPerPageName).Some?
    ensures ParseInt(Lookup(Params(c), NumPerPageName).value) == Some(c.numPerPage as int)
  {
    var language := Languages.Normalise(c.language);
    LookupFront(c, language, DayParams(c));
    LookupDay(c, language, DayParams(c));
    LookupBack(c, language, DayParams(c));
    IntToStringRoundTrip(c.numPerPage);
  }

  /**
   * GetSteamReviews.py:79 as written: the URL carries the same values for
   * every other parameter, and a day_range exactly when one was given, but
   * its value is `[d]`, which is not an integer.
   */
  lemma ParamValuesAsWritten(c: Config)
    ensures forall name :: name != DayRangeName ==> Lookup(ParamsAsWritten(c), name) == Lookup(Params(c), name)
    ensures Lookup(ParamsAsWritten(c), DayRangeName).Some? <==> c.dayRange.Some?
    ensures c.dayRange.Some? ==> Lookup(ParamsAsWritten(c), DayRangeName).value == ListRepr([c.dayRange.value])
    ensures c.dayRange.Some? ==> ParseInt(Lookup(ParamsAsWritten(c), DayRangeName).value) == None
  {
    var language := Languages.Normalise(c.language);
    LookupFront(c, language, DayParams(c));
    LookupBack(c, language, DayParams(c));
    LookupFront(c, language, DayParamsAsWritten(c));
    LookupDay(c, language, DayParamsAsWritten(c));
    LookupBack(c, language, DayParamsAsWritten(c));
  }

  /** An accepted `--language` value puts one of the long names into the URL. */
  lemma LanguageParamIsLong(c: Config)
    requires c.language in Languages.LangLong + Languages.LangShort
    ensures Lookup(Params(c), LanguageName).Some?
    ensures Lookup(Params(c), LanguageName).value in Languages.LangLong
  {
    ParamValues(c);
    Languages.AcceptedLanguageIsLong(c.language);
  }
}
