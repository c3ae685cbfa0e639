/**
 The search options of a rule: what each asks of a program, the condition that src/model/db/ProgramDB.ts
 writes for it, and the proof that the condition is true exactly for the programs asked for.
 */
module RuleMeaning {
  import opened Options
  import opened WhereClause

  datatype Genre = Genre(genre: int, subGenre: Option<int>)

  datatype SearchTime = SearchTime(week: int, start: Option<int>, range: Option<int>)

  datatype SearchPeriod = SearchPeriod(startAt: int, endAt: int)

  datatype KeywordOption = KeywordOption(cs: bool, regexp: bool, name: bool, description: bool, extended: bool)

  /** A flag that is absent is false; `channelTypes` holds the names of the type flags that are set. */
  datatype RuleSearchOption = RuleSearchOption(
    keyword: Option<string>, keywordOption: KeywordOption,
    ignoreKeyword: Option<string>, ignoreKeywordOption: KeywordOption,
    channelIds: Option<seq<int>>, channelTypes: set<string>,
    genres: Option<seq<Genre>>, times: Option<seq<SearchTime>>,
    isFree: bool, durationMin: Option<int>, durationMax: Option<int>,
    searchPeriods: Option<seq<SearchPeriod>>)

  type Params = map<string, Param>

  function Listed<T>(list: Option<seq<T>>): seq<T> {
    if list.None? then [] else list.value
  }

  ghost predicate AllYes(cs: seq<Condition>, p: Program, params: Params, db: Database) {
    forall k :: 0 <= k < |cs| ==> Evaluate(cs[k], p, params, db) == Yes
  }

  ghost predicate AllWellFormed(cs: seq<Condition>, params: Params) {
    forall k :: 0 <= k < |cs| ==> WellFormed(cs[k], params)
  }

  lemma PairTruth(a: Condition, b: Condition, p: Program, params: Params, db: Database)
    ensures WellFormed(And([a, b]), params) <==> WellFormed(a, params) && WellFormed(b, params)
    ensures Evaluate(And([a, b]), p, params, db) == Yes <==> Evaluate(a, p, params, db) == Yes && Evaluate(b, p, params, db) == Yes
  {
    var all := [a, b];
    assert all[0] == a && all[1] == b;
    assert Evaluate(And(all), p, params, db) == Yes <==> AllYes(all, p, params, db);
    assert WellFormed(And(all), params) <==> AllWellFormed(all, params);
  }

  lemma TripleTruth(a: Condition, b: Condition, c: Condition, p: Program, params: Params, db: Database)
    ensures WellFormed(Or([a, b, c]), params) <==> WellFormed(a, params) && WellFormed(b, params) && WellFormed(c, params)
    ensures Evaluate(Or([a, b, c]), p, params, db) == Yes
       <==> Evaluate(a, p, params, db) == Yes || Evaluate(b, p, params, db) == Yes || Evaluate(c, p, params, db) == Yes
  {
    var any := [a, b, c];
    assert any[0] == a && any[1] == b && any[2] == c;
    assert WellFormed(Or(any), params) <==> AllWellFormed(any, params);
  }

  lemma AndTruth(all: seq<Condition>, holds: seq<bool>, p: Program, params: Params, db: Database)
    requires |holds| == |all| && forall k :: 0 <= k < |all| ==> Evaluate(all[k], p, params, db) == FromBool(holds[k])
    ensures Evaluate(And(all), p, params, db) == FromBool(forall k :: 0 <= k < |holds| ==> holds[k])
  {
  }

  lemma OrTruth(any: seq<Condition>, holds: seq<bool>, p: Program, params: Params, db: Database)
    requires |holds| == |any| && forall k :: 0 <= k < |any| ==> Evaluate(any[k], p, params, db) == FromBool(holds[k])
    ensures Evaluate(Or(any), p, params, db) == FromBool(exists k :: 0 <= k < |holds| && holds[k])
  {
  }

  ghost predicate Bound(params: Params, name: string, value: Param) {
    name in params && params[name] == value
  }

  // Keywords

  function Joined(words: seq<string>): string
    requires words != []
  {
    if |words| == 1 then words[0] else words[0] + " " + Joined(words[1..])
  }

  /** Words without spaces that give the text when joined by single spaces; an empty word counts. */
  ghost predicate Splits(words: seq<string>, text: string) {
    words != [] && (forall k :: 0 <= k < |words| ==> ' ' !in words[k]) && Joined(words) == text
  }

  function Words(s: string): (words: seq<string>)
    ensures Splits(words, s)
  {
    if s == "" then [""]
    else
      var rest := Words(s[1..]);
      if s[0] == ' ' then [""] + rest else [[s[0]] + rest[0]] + rest[1..]
  }

  /** The place of the first space shows the first word. */
  lemma FirstWord(words: seq<string>, text: string)
    requires Splits(words, text)
    ensures |words| == 1 <==> ' ' !in text
    ensures |words| > 1 ==>
      && |words[0]| < |text| && text[..|words[0]|] == words[0] && text[|words[0]|] == ' '
      && Splits(words[1..], text[|words[0]| + 1..])
  {
    if |words| > 1 {
      assert text == words[0] + " " + Joined(words[1..]);
      assert text[|words[0]|] == ' ';
    }
  }

  /** A text is split in one way only. */
  lemma {:induction false} SplitsOnce(a: seq<string>, b: seq<string>, text: string)
    requires Splits(a, text) && Splits(b, text)
    ensures a == b
  {
    FirstWord(a, text);
    FirstWord(b, text);
    if |a| > 1 {
      SplitsOnce(a[1..], b[1..], text[|a[0]| + 1..]);
      assert a == [a[0]] + a[1..] && b == [b[0]] + b[1..];
    }
  }

  function Effective(option: KeywordOption, db: Database): KeywordOption {
    option.(cs := option.cs && db.caseSensitivityEnabled, regexp := option.regexp && db.regexpEnabled)
  }

  predicate Searches(option: KeywordOption, field: Field) {
    match field
    case Name => option.name
    case Description => option.description
    case Extended => option.extended
  }

  function TextOrEmpty(p: Program, field: Field): string {
    if TextOf(p, field).None? then "" else TextOf(p, field).value
  }

  ghost predicate LikeMeets(word: string, cs: bool, text: string, db: Database) {
    db.like(text, "%" + word + "%", cs)
  }

  ghost predicate AllLike(words: seq<string>, cs: bool, text: string, db: Database) {
    forall k :: 0 <= k < |words| ==> LikeMeets(words[k], cs, text, db)
  }

  ghost predicate FieldMeets(keyword: string, option: KeywordOption, text: string, db: Database) {
    if option.regexp then db.regexp(text, db.toHalfRegExp(keyword), option.cs)
    else forall words :: Splits(words, db.toHalf(keyword)) ==> AllLike(words, option.cs, text, db)
  }

  /** Some searched text matches the expression, or has all the words in it. */
  ghost predicate KeywordMeets(keyword: string, option: KeywordOption, p: Program, db: Database) {
    exists field :: Searches(option, field) && FieldMeets(keyword, option, TextOrEmpty(p, field), db)
  }

  predicate IsBase(base: string) { base == "keyword" || base == "ignoreKeyword" }

  function LikeBase(base: string, field: Field): (name: string)
    requires IsBase(base)
    ensures name != "" && !EndsInDigit(name) && base <= name
    ensures |name| == |base| + match field case Name => 4 case Description => 11 case Extended => 8
  {
    match field
    case Name => base + "Name"
    case Description => base + "Description"
    case Extended => base + "Extended"
  }

  function LikeConditions(base: string, field: Field, cs: bool, n: nat): (r: seq<Condition>)
    requires IsBase(base)
    ensures |r| == n
    ensures forall k :: 0 <= k < n ==> r[k] == Matches(field, field != Name, Like, cs, Indexed(LikeBase(base, field), k))
  {
    if n == 0 then []
    else LikeConditions(base, field, cs, n - 1) + [Matches(field, field != Name, Like, cs, Indexed(LikeBase(base, field), n - 1))]
  }

  function FieldCondition(base: string, field: Field, keyword: string, option: KeywordOption, db: Database): Condition
    requires IsBase(base)
  {
    if option.regexp then Matches(field, field != Name, Regexp, option.cs, base + "Regexp")
    else And(LikeConditions(base, field, option.cs, |Words(db.toHalf(keyword))|))
  }

  ghost predicate LikeBound(base: string, field: Field, words: seq<string>, n: nat, params: Params)
    requires IsBase(base) && n <= |words|
  {
    forall k :: 0 <= k < n ==> Bound(params, Indexed(LikeBase(base, field), k), One(Text("%" + words[k] + "%")))
  }

  ghost predicate KeywordBound(base: string, keyword: string, option: KeywordOption, params: Params, db: Database)
    requires IsBase(base)
  {
    if option.regexp then Bound(params, base + "Regexp", One(Text(db.toHalfRegExp(keyword))))
    else
      var words := Words(db.toHalf(keyword));
      forall field :: Searches(option, field) ==> LikeBound(base, field, words, |words|, params)
  }

  lemma OneLikeTruth(c: Condition, word: string, p: Program, params: Params, db: Database)
    requires c.Matches? && c.coalesced == (c.field != Name) && c.matcher == Like && Bound(params, c.name, One(Text("%" + word + "%")))
    ensures WellFormed(c, params)
    ensures Evaluate(c, p, params, db) == FromBool(LikeMeets(word, c.caseSensitive, TextOrEmpty(p, c.field), db))
  {
  }

  lemma EachLikeTruth(base: string, field: Field, words: seq<string>, cs: bool, p: Program, params: Params, db: Database)
    requires IsBase(base) && LikeBound(base, field, words, |words|, params)
    ensures var conditions := LikeConditions(base, field, cs, |words|);
      && AllWellFormed(conditions, params)
      && forall k :: 0 <= k < |words| ==>
           Evaluate(conditions[k], p, params, db) == FromBool(LikeMeets(words[k], cs, TextOrEmpty(p, field), db))
  {
    var conditions := LikeConditions(base, field, cs, |words|);
    forall k | 0 <= k < |words|
      ensures WellFormed(conditions[k], params)
      ensures Evaluate(conditions[k], p, params, db) == FromBool(LikeMeets(words[k], cs, TextOrEmpty(p, field), db))
    {
      OneLikeTruth(conditions[k], words[k], p, params, db);
    }
  }

  lemma AllLikeTruth(conditions: seq<Condition>, words: seq<string>, cs: bool, text: string, p: Program, params: Params, db: Database)
    requires conditions != [] && |conditions| == |words| && AllWellFormed(conditions, params)
    requires forall k :: 0 <= k < |words| ==> Evaluate(conditions[k], p, params, db) == FromBool(LikeMeets(words[k], cs, text, db))
    ensures WellFormed(And(conditions), params)
    ensures Evaluate(And(conditions), p, params, db) == FromBool(AllLike(words, cs, text, db))
  {
    ghost var holds := seq(|words|, k requires 0 <= k < |words| => LikeMeets(words[k], cs, text, db));
    AndTruth(conditions, holds, p, params, db);
    assert AllLike(words, cs, text, db) <==> forall k :: 0 <= k < |holds| ==> holds[k];
  }

  lemma LikeTruth(base: string, field: Field, words: seq<string>, cs: bool, p: Program, params: Params, db: Database)
    requires IsBase(base) && words != [] && LikeBound(base, field, words, |words|, params)
    ensures var c := And(LikeConditions(base, field, cs, |words|));
      && WellFormed(c, params)
      && Evaluate(c, p, params, db) == FromBool(AllLike(words, cs, TextOrEmpty(p, field), db))
  {
    EachLikeTruth(base, field, words, cs, p, params, db);
    AllLikeTruth(LikeConditions(base, field, cs, |words|), words, cs, TextOrEmpty(p, field), p, params, db);
  }

  /** The condition for one text is never unknown, whether or not the program has that text. */
  lemma FieldTruth(base: string, field: Field, keyword: string, option: KeywordOption, p: Program, params: Params, db: Database)
    requires IsBase(base) && Searches(option, field) && KeywordBound(base, keyword, option, params, db)
    ensures var c := FieldCondition(base, field, keyword, option, db);
      WellFormed(c, params) && Evaluate(c, p, params, db) == FromBool(FieldMeets(keyword, option, TextOrEmpty(p, field), db))
  {
    if !option.regexp {
      var words := Words(db.toHalf(keyword));
      LikeTruth(base, field, words, option.cs, p, params, db);
      forall other | Splits(other, db.toHalf(keyword)) ensures other == words { SplitsOnce(other, words, db.toHalf(keyword)); }
    }
  }

  predicate KeywordLegal(option: KeywordOption) { option.name || option.description || option.extended }

  /** One searched field after another. */
  function Searched(option: KeywordOption): seq<Field> {
    [] + FieldIf(option, Name) + FieldIf(option, Description) + FieldIf(option, Extended)
  }

  function FieldIf(option: KeywordOption, field: Field): seq<Field> {
    if Searches(option, field) then [field] else []
  }

  lemma SearchedShows(option: KeywordOption)
    ensures forall field :: field in Searched(option) <==> Searches(option, field)
    ensures Searched(option) != [] <==> KeywordLegal(option)
  {
  }

  function KeywordCondition(base: string, keyword: string, option: KeywordOption, db: Database): Condition
    requires IsBase(base)
  {
    Or(FieldConditions(base, Searched(option), keyword, option, db))
  }

  function FieldConditions(base: string, fields: seq<Field>, keyword: string, option: KeywordOption, db: Database): (r: seq<Condition>)
    requires IsBase(base)
    ensures |r| == |fields| && forall k :: 0 <= k < |r| ==> r[k] == FieldCondition(base, fields[k], keyword, option, db)
  {
    if fields == [] then []
    else [FieldCondition(base, fields[0], keyword, option, db)] + FieldConditions(base, fields[1..], keyword, option, db)
  }

  lemma FieldsTruth(base: string, fields: seq<Field>, keyword: string, option: KeywordOption, p: Program, params: Params, db: Database)
    requires IsBase(base) && KeywordBound(base, keyword, option, params, db) && forall field :: field in fields ==> Searches(option, field)
    ensures var any := FieldConditions(base, fields, keyword, option, db);
      && AllWellFormed(any, params)
      && Evaluate(Or(any), p, params, db)
          == FromBool(exists k :: 0 <= k < |fields| && FieldMeets(keyword, option, TextOrEmpty(p, fields[k]), db))
  {
    var any := FieldConditions(base, fields, keyword, option, db);
    ghost var holds := seq(|fields|, k requires 0 <= k < |fields| => FieldMeets(keyword, option, TextOrEmpty(p, fields[k]), db));
    forall k | 0 <= k < |fields| ensures WellFormed(any[k], params) && Evaluate(any[k], p, params, db) == FromBool(holds[k]) {
      FieldTruth(base, fields[k], keyword, option, p, params, db);
    }
    OrTruth(any, holds, p, params, db);
  }

  /** A keyword condition is true or false, never unknown; so is its negation. */
  lemma KeywordTruth(base: string, keyword: string, option: KeywordOption, p: Program, params: Params, db: Database)
    requires IsBase(base) && KeywordBound(base, keyword, option, params, db)
    ensures WellFormed(KeywordCondition(base, keyword, option, db), params) <==> KeywordLegal(option)
    ensures Evaluate(KeywordCondition(base, keyword, option, db), p, params, db) == FromBool(KeywordMeets(keyword, option, p, db))
  {
    var fields := Searched(option);
    SearchedShows(option);
    FieldsTruth(base, fields, keyword, option, p, params, db);
    var c := KeywordCondition(base, keyword, option, db);
    assert WellFormed(c, params) <==> c.any != [] && AllWellFormed(c.any, params);
    SearchedMeets(keyword, option, p, db);
  }

  lemma SearchedMeets(keyword: string, option: KeywordOption, p: Program, db: Database)
    ensures KeywordMeets(keyword, option, p, db)
       <==> exists k :: 0 <= k < |Searched(option)| && FieldMeets(keyword, option, TextOrEmpty(p, Searched(option)[k]), db)
  {
    SearchedShows(option);
    var fields := Searched(option);
    if KeywordMeets(keyword, option, p, db) {
      var field :| Searches(option, field) && FieldMeets(keyword, option, TextOrEmpty(p, field), db);
      assert field in fields;
    }
    if k :| 0 <= k < |fields| && FieldMeets(keyword, option, TextOrEmpty(p, fields[k]), db) { assert fields[k] in fields; }
  }

  // Channels

  predicate IsChannelType(name: string) {
    name in ["GR", "GR-ALT", "BS", "CS", "SKY", "BS4K"] || (exists i :: 1 <= i <= 40 && name == Indexed("NW", i))
  }

  lemma NetworkTypes()
    ensures forall i: nat :: IsChannelType(Indexed("NW", i)) <==> 1 <= i <= 40
  {
    forall i: nat ensures IsChannelType(Indexed("NW", i)) <==> 1 <= i <= 40 {
      assert Indexed("NW", i)[0] == 'N';
    }
  }

  ghost predicate ChannelMeets(option: RuleSearchOption, p: Program) {
    if Listed(option.channelIds) != [] then p.channelId in option.channelIds.value
    else NoChannelType(option) || (p.channelType in option.channelTypes && IsChannelType(p.channelType))
  }

  ghost predicate NoChannelType(option: RuleSearchOption) {
    forall name :: name in option.channelTypes ==> !IsChannelType(name)
  }

  ghost function ChannelPart(option: RuleSearchOption): seq<Condition> {
    if Listed(option.channelIds) != [] then [In(ChannelId, "channelId")]
    else if NoChannelType(option) then []
    else [In(ChannelType, "channelType")]
  }

  ghost predicate ChannelBound(option: RuleSearchOption, params: Params) {
    if Listed(option.channelIds) != [] then
      && "channelId" in params && params["channelId"].Many?
      && forall v :: v in params["channelId"].values <==> v.Whole? && v.number in option.channelIds.value
    else if NoChannelType(option) then true
    else
      && "channelType" in params && params["channelType"].Many?
      && forall v :: v in params["channelType"].values <==> v.Text? && v.text in option.channelTypes && IsChannelType(v.text)
  }

  lemma ChannelTruth(option: RuleSearchOption, p: Program, params: Params, db: Database)
    requires ChannelBound(option, params)
    ensures AllWellFormed(ChannelPart(option), params)
    ensures AllYes(ChannelPart(option), p, params, db) <==> ChannelMeets(option, p)
  {
    if Listed(option.channelIds) != [] {
      assert Whole(option.channelIds.value[0]) in params["channelId"].values;
      assert ChannelPart(option)[0] == In(ChannelId, "channelId");
    } else if !NoChannelType(option) {
      var name :| name in option.channelTypes && IsChannelType(name);
      assert Text(name) in params["channelType"].values;
      assert ChannelPart(option)[0] == In(ChannelType, "channelType");
    }
  }

  // Genres

  predicate GenreMatches(g: Genre, genre: Option<int>, subGenre: Option<int>) {
    genre == Some(g.genre) && (g.subGenre.None? || subGenre == g.subGenre)
  }

  ghost predicate GenreMeets(g: Genre, p: Program) {
    GenreMatches(g, p.genre1, p.subGenre1) || GenreMatches(g, p.genre2, p.subGenre2) || GenreMatches(g, p.genre3, p.subGenre3)
  }

  ghost predicate GenresMeet(genres: seq<Genre>, p: Program) {
    exists i :: 0 <= i < |genres| && GenreMeets(genres[i], p)
  }

  function OneGenre(g: Genre, i: nat, genre: Column, subGenre: Column): Condition {
    var equal := Compare(genre, Equal, Indexed("genre", i));
    if g.subGenre.None? then equal else And([equal, Compare(subGenre, Equal, Indexed("subgenre", i))])
  }

  function GenreCondition(g: Genre, i: nat): Condition {
    Or([OneGenre(g, i, Genre1, SubGenre1), OneGenre(g, i, Genre2, SubGenre2), OneGenre(g, i, Genre3, SubGenre3)])
  }

  ghost predicate GenreBound(g: Genre, i: nat, params: Params) {
    && Bound(params, Indexed("genre", i), One(Whole(g.genre)))
    && (g.subGenre.Some? ==> Bound(params, Indexed("subgenre", i), One(Whole(g.subGenre.value))))
  }

  function GenreConditions(genres: seq<Genre>, n: nat): (r: seq<Condition>)
    requires n <= |genres|
    ensures |r| == n && forall i :: 0 <= i < n ==> r[i] == GenreCondition(genres[i], i)
  {
    if n == 0 then [] else GenreConditions(genres, n - 1) + [GenreCondition(genres[n - 1], n - 1)]
  }

  function GenresPart(genres: seq<Genre>): seq<Condition> {
    if genres == [] then [] else [Or(GenreConditions(genres, |genres|))]
  }

  ghost predicate GenresBound(genres: seq<Genre>, n: nat, params: Params)
    requires n <= |genres|
  {
    forall i :: 0 <= i < n ==> GenreBound(genres[i], i, params)
  }

  lemma OneGenreTruth(g: Genre, i: nat, genre: Column, subGenre: Column, has: Option<int>, hasSub: Option<int>,
                      p: Program, params: Params, db: Database)
    requires GenreBound(g, i, params) && ValueOf(p, genre) == Number(has) && ValueOf(p, subGenre) == Number(hasSub)
    ensures WellFormed(OneGenre(g, i, genre, subGenre), params)
    ensures Evaluate(OneGenre(g, i, genre, subGenre), p, params, db) == Yes <==> GenreMatches(g, has, hasSub)
  {
    PairTruth(Compare(genre, Equal, Indexed("genre", i)), Compare(subGenre, Equal, Indexed("subgenre", i)), p, params, db);
  }

  lemma GenreTruth(g: Genre, i: nat, p: Program, params: Params, db: Database)
    requires GenreBound(g, i, params)
    ensures WellFormed(GenreCondition(g, i), params)
    ensures Evaluate(GenreCondition(g, i), p, params, db) == Yes <==> GenreMeets(g, p)
  {
    OneGenreTruth(g, i, Genre1, SubGenre1, p.genre1, p.subGenre1, p, params, db);
    OneGenreTruth(g, i, Genre2, SubGenre2, p.genre2, p.subGenre2, p, params, db);
    OneGenreTruth(g, i, Genre3, SubGenre3, p.genre3, p.subGenre3, p, params, db);
    TripleTruth(OneGenre(g, i, Genre1, SubGenre1), OneGenre(g, i, Genre2, SubGenre2), OneGenre(g, i, Genre3, SubGenre3), p, params, db);
  }

  lemma GenresTruth(genres: seq<Genre>, p: Program, params: Params, db: Database)
    requires GenresBound(genres, |genres|, params)
    ensures AllWellFormed(GenresPart(genres), params)
    ensures AllYes(GenresPart(genres), p, params, db) <==> (genres == [] || GenresMeet(genres, p))
  {
    forall i | 0 <= i < |genres|
      ensures WellFormed(GenreCondition(genres[i], i), params)
      ensures Evaluate(GenreCondition(genres[i], i), p, params, db) == Yes <==> GenreMeets(genres[i], p)
    {
      assert GenreBound(genres[i], i, params);
      GenreTruth(genres[i], i, p, params, db);
    }
    if genres != [] { assert GenresPart(genres)[0] == Or(GenreConditions(genres, |genres|)); }
  }

  // Times

  /** Bit `day` of the week mask. */
  predicate HasDay(week: int, day: int) {
    0 <= day < 7 && (week / [1, 2, 4, 8, 16, 32, 64][day]) % 2 == 1
  }

  /** Day 0 goes by the lowest bit of the mask, and each next day by the next bit; no other day is named. */
  lemma DayIsBit(week: int, day: nat, low: nat, bit: nat, high: int)
    requires bit < 2 && low < Power(day) && week == low + Power(day) * (bit + 2 * high)
    ensures HasDay(week, day) <==> day < 7 && bit == 1
  {
    if day < 7 {
      var value := [1, 2, 4, 8, 16, 32, 64][day];
      assert Power(2) == 4 && Power(4) == 16 && Power(6) == 64;
      assert value == Power(day);
      assert week / value == bit + 2 * high by { QuotientShows(week, value, bit + 2 * high, low); }
    }
  }

  function Power(day: nat): (value: nat)
    ensures value > 0
  {
    if day == 0 then 1 else 2 * Power(day - 1)
  }

  lemma QuotientShows(n: int, d: nat, q: int, r: nat)
    requires r < d && n == r + d * q
    ensures n / d == q
  {
    var e := n / d - q;
    assert d * e == r - n % d;
    assert (e >= 1 ==> d * e >= d) && (e <= -1 ==> d * e + d <= 0);
  }

  predicate NoDay(week: int) {
    forall day :: 0 <= day < 7 ==> !HasDay(week, day)
  }

  /** The remainder whose sign is that of the dividend. */
  function Remainder(a: int, b: int): int
    requires b > 0
  {
    if a >= 0 then a % b else -((-a) % b)
  }

  predicate HasHours(t: SearchTime) { t.start.Some? && t.range.Some? }

  /** The hour lies in the range of hours from `start`, around midnight if need be. */
  predicate HourMeets(start: int, range: int, hour: int) {
    0 <= hour < 24 && (hour - start) % 24 < range
  }

  ghost predicate TimeMeets(t: SearchTime, p: Program) {
    HasDay(t.week, p.week) && (HasHours(t) ==> HourMeets(t.start.value, t.range.value, p.startHour))
  }

  /** The hours compared with: `start` itself for one hour, else the remainders from `start` on. */
  ghost predicate HourListed(start: int, range: int, hour: int) {
    if range == 1 then hour == start
    else exists j :: start <= j < start + range && Remainder(j, 24) == hour
  }

  /** The ranges for which the hours compared with are the hours meant. */
  predicate HoursExact(start: int, range: int) {
    if start >= 0 then start < 24 || range > 1 else start + range >= 24
  }

  lemma ListedHourMeets(start: int, range: int, hour: int)
    requires range >= 1 && HoursExact(start, range) && 0 <= hour < 24
    ensures HourListed(start, range, hour) <==> HourMeets(start, range, hour)
  {
    if HourMeets(start, range, hour) {
      var first := if start >= 0 then start else 0;
      var j := first + (hour - first) % 24;
      assert j % 24 == hour;
      assert start <= j < start + range && Remainder(j, 24) == hour;
    }
  }

  /** Before midnight of the first day only the hours after it are listed. */
  lemma NotListed(start: int, range: int, hour: int)
    requires start < 0 && range > 1 && start + range <= hour && 0 < hour < 24
    ensures !HourListed(start, range, hour)
  {
    forall j | start <= j < start + range ensures Remainder(j, 24) != hour {
      if j >= 0 { assert j % 24 == j; }
    }
  }

  lemma MissedHour(start: int, range: int) returns (hour: int)
    requires start < 0 && range > 1 && start + range < 24
    ensures 0 <= hour < 24 && HourMeets(start, range, hour) && !HourListed(start, range, hour)
  {
    hour := if range >= 24 then 23 else if start % 24 == 0 then 1 else start % 24;
    assert start % 24 >= start + 24;
    NotListed(start, range, hour);
  }

  /** The hours compared with are the hours meant exactly under `HoursExact`. */
  lemma HoursExactly(start: int, range: int)
    requires range >= 1
    ensures HoursExact(start, range)
       <==> forall hour :: 0 <= hour < 24 ==> (HourListed(start, range, hour) <==> HourMeets(start, range, hour))
  {
    if HoursExact(start, range) {
      forall hour | 0 <= hour < 24 ensures HourListed(start, range, hour) <==> HourMeets(start, range, hour) {
        ListedHourMeets(start, range, hour);
      }
    } else if range == 1 {
      assert HourMeets(start, range, start % 24) && !HourListed(start, range, start % 24);
    } else {
      var hour := MissedHour(start, range);
    }
  }

  function TimeCondition(t: SearchTime, i: nat): Condition {
    var day := In(Week, Indexed("week", i));
    if !HasHours(t) then day
    else And([day, HourCondition(t.range.value, i)])
  }

  function HourCondition(range: int, i: nat): Condition {
    if range == 1 then Compare(StartHour, Equal, Indexed("time", i)) else In(StartHour, Indexed("time", i))
  }

  ghost predicate TimeBound(t: SearchTime, i: nat, params: Params) {
    && Indexed("week", i) in params && params[Indexed("week", i)].Many?
    && (forall v :: v in params[Indexed("week", i)].values <==> v.Whole? && HasDay(t.week, v.number))
    && (HasHours(t) ==> Indexed("time", i) in params && HoursBound(t.start.value, t.range.value, params[Indexed("time", i)]))
  }

  ghost predicate HoursBound(start: int, range: int, param: Param) {
    if range == 1 then param == One(Whole(start))
    else param.Many? && forall v :: v in param.values <==> v.Whole? && HourListed(start, range, v.number)
  }

  /** One condition for each entry that names a day. */
  function TimeConditions(times: seq<SearchTime>, n: nat): seq<Condition>
    requires n <= |times|
  {
    if n == 0 then []
    else TimeConditions(times, n - 1) + if NoDay(times[n - 1].week) then [] else [TimeCondition(times[n - 1], n - 1)]
  }

  function TimesPart(times: seq<SearchTime>): seq<Condition> {
    if times == [] then [] else [Or(TimeConditions(times, |times|))]
  }

  ghost predicate TimesBound(times: seq<SearchTime>, n: nat, params: Params)
    requires n <= |times|
  {
    forall i :: 0 <= i < n && !NoDay(times[i].week) ==> TimeBound(times[i], i, params)
  }

  predicate TimeLegal(t: SearchTime) { HasHours(t) ==> t.range.value >= 1 }

  predicate TimeExact(t: SearchTime) { HasHours(t) ==> HoursExact(t.start.value, t.range.value) }

  lemma SomeMember(values: seq<Value>)
    ensures values == [] || exists v :: v in values
  {
    if values != [] { assert values[0] in values; }
  }

  lemma HourTruth(start: int, range: int, i: nat, p: Program, params: Params, db: Database)
    requires Indexed("time", i) in params && HoursBound(start, range, params[Indexed("time", i)])
    ensures WellFormed(HourCondition(range, i), params) <==> range >= 1
    ensures Evaluate(HourCondition(range, i), p, params, db) == Yes <==> HourListed(start, range, p.startHour)
  {
    if range > 1 {
      assert start <= start < start + range;
      assert HourListed(start, range, Remainder(start, 24));
      assert Whole(Remainder(start, 24)) in params[Indexed("time", i)].values;
    } else if range < 1 {
      SomeMember(params[Indexed("time", i)].values);
      assert forall hour :: !HourListed(start, range, hour);
    }
  }

  lemma TimeTruth(t: SearchTime, i: nat, p: Program, params: Params, db: Database)
    requires !NoDay(t.week) && TimeBound(t, i, params)
    ensures WellFormed(TimeCondition(t, i), params) <==> TimeLegal(t)
    ensures 0 <= p.startHour < 24 && TimeLegal(t) && TimeExact(t)
        ==> (Evaluate(TimeCondition(t, i), p, params, db) == Yes <==> TimeMeets(t, p))
  {
    var day := In(Week, Indexed("week", i));
    var d :| 0 <= d < 7 && HasDay(t.week, d);
    assert Whole(d) in params[Indexed("week", i)].values;
    assert WellFormed(day, params) && (Evaluate(day, p, params, db) == Yes <==> HasDay(t.week, p.week));
    if HasHours(t) {
      PairTruth(day, HourCondition(t.range.value, i), p, params, db);
      HourTruth(t.start.value, t.range.value, i, p, params, db);
      if 0 <= p.startHour < 24 && TimeLegal(t) && TimeExact(t) { ListedHourMeets(t.start.value, t.range.value, p.startHour); }
    }
  }

  ghost predicate SomeYes(cs: seq<Condition>, p: Program, params: Params, db: Database) {
    exists k :: 0 <= k < |cs| && Evaluate(cs[k], p, params, db) == Yes
  }

  lemma SomeYesConcat(a: seq<Condition>, b: seq<Condition>, p: Program, params: Params, db: Database)
    ensures SomeYes(a + b, p, params, db) <==> SomeYes(a, p, params, db) || SomeYes(b, p, params, db)
    ensures AllYes(a + b, p, params, db) <==> AllYes(a, p, params, db) && AllYes(b, p, params, db)
    ensures AllWellFormed(a + b, params) <==> AllWellFormed(a, params) && AllWellFormed(b, params)
  {
    var c := a + b;
    assert forall k :: 0 <= k < |a| ==> c[k] == a[k];
    assert forall k :: 0 <= k < |b| ==> c[|a| + k] == b[k];
    forall k | 0 <= k < |c| ensures c[k] == if k < |a| then a[k] else b[k - |a|] {}
  }

  ghost predicate AllLegal(times: seq<SearchTime>, n: nat)
    requires n <= |times|
  {
    forall i :: 0 <= i < n && !NoDay(times[i].week) ==> TimeLegal(times[i])
  }

  ghost predicate AllExact(times: seq<SearchTime>, n: nat)
    requires n <= |times|
  {
    forall i :: 0 <= i < n && !NoDay(times[i].week) ==> TimeExact(times[i])
  }

  ghost predicate SomeMeets(times: seq<SearchTime>, n: nat, p: Program)
    requires n <= |times|
  {
    exists i :: 0 <= i < n && TimeMeets(times[i], p)
  }

  lemma {:induction false} TimeConditionsShow(times: seq<SearchTime>, n: nat, p: Program, params: Params, db: Database)
    requires n <= |times| && TimesBound(times, n, params)
    ensures AllWellFormed(TimeConditions(times, n), params) <==> AllLegal(times, n)
    ensures 0 <= p.startHour < 24 && AllLegal(times, n) && AllExact(times, n)
        ==> (SomeYes(TimeConditions(times, n), p, params, db) <==> SomeMeets(times, n, p))
  {
    if n > 0 {
      TimeConditionsShow(times, n - 1, p, params, db);
      var t, before := times[n - 1], TimeConditions(times, n - 1);
      SplitLast(times, n, p);
      if NoDay(t.week) {
        assert before + [] == before;
      } else {
        TimeTruth(t, n - 1, p, params, db);
        SomeYesConcat(before, [TimeCondition(t, n - 1)], p, params, db);
        SingleTruth(TimeCondition(t, n - 1), p, params, db);
      }
    }
  }

  lemma SplitLast(times: seq<SearchTime>, n: nat, p: Program)
    requires 0 < n <= |times|
    ensures AllLegal(times, n) <==> AllLegal(times, n - 1) && (NoDay(times[n - 1].week) || TimeLegal(times[n - 1]))
    ensures AllExact(times, n) <==> AllExact(times, n - 1) && (NoDay(times[n - 1].week) || TimeExact(times[n - 1]))
    ensures SomeMeets(times, n, p) <==> SomeMeets(times, n - 1, p) || TimeMeets(times[n - 1], p)
    ensures NoDay(times[n - 1].week) ==> !TimeMeets(times[n - 1], p)
  {
  }

  lemma SingleTruth(c: Condition, p: Program, params: Params, db: Database)
    ensures SomeYes([c], p, params, db) <==> Evaluate(c, p, params, db) == Yes
    ensures AllYes([c], p, params, db) <==> Evaluate(c, p, params, db) == Yes
    ensures AllWellFormed([c], params) <==> WellFormed(c, params)
  {
    assert [c][0] == c;
  }

  lemma {:induction false} NoConditionsExactly(times: seq<SearchTime>, n: nat)
    requires n <= |times|
    ensures TimeConditions(times, n) == [] <==> forall i :: 0 <= i < n ==> NoDay(times[i].week)
  {
    if n > 0 { NoConditionsExactly(times, n - 1); }
  }

  lemma AnyTruth(any: seq<Condition>, p: Program, params: Params, db: Database)
    ensures WellFormed(Or(any), params) <==> any != [] && AllWellFormed(any, params)
    ensures Evaluate(Or(any), p, params, db) == Yes <==> SomeYes(any, p, params, db)
  {
  }

  ghost predicate TimesLegal(times: seq<SearchTime>) {
    && (times != [] ==> exists i :: 0 <= i < |times| && !NoDay(times[i].week))
    && AllLegal(times, |times|)
  }

  lemma TimesTruth(times: seq<SearchTime>, p: Program, params: Params, db: Database)
    requires TimesBound(times, |times|, params)
    ensures AllWellFormed(TimesPart(times), params) <==> TimesLegal(times)
    ensures 0 <= p.startHour < 24 && TimesLegal(times) && AllExact(times, |times|)
        ==> (AllYes(TimesPart(times), p, params, db) <==> (times == [] || SomeMeets(times, |times|, p)))
  {
    TimeConditionsShow(times, |times|, p, params, db);
    NoConditionsExactly(times, |times|);
    if times != [] {
      AnyTruth(TimeConditions(times, |times|), p, params, db);
      SingleTruth(Or(TimeConditions(times, |times|)), p, params, db);
    }
  }

  // Periods

  function PeriodCondition(i: nat): Condition {
    And([Compare(StartAt, AtLeast, Indexed("sarchPeriodsStartAt", i)), Compare(StartAt, AtMost, Indexed("sarchPeriodsEndAt", i))])
  }

  function PeriodConditions(n: nat): (r: seq<Condition>)
    ensures |r| == n && forall i :: 0 <= i < n ==> r[i] == PeriodCondition(i)
  {
    if n == 0 then [] else PeriodConditions(n - 1) + [PeriodCondition(n - 1)]
  }

  function PeriodsPart(periods: seq<SearchPeriod>): seq<Condition> {
    if periods == [] then [] else [Or(PeriodConditions(|periods|))]
  }

  ghost predicate PeriodBound(period: SearchPeriod, i: nat, params: Params) {
    && Bound(params, Indexed("sarchPeriodsStartAt", i), One(Whole(period.startAt)))
    && Bound(params, Indexed("sarchPeriodsEndAt", i), One(Whole(period.endAt)))
  }

  ghost predicate PeriodsBound(periods: seq<SearchPeriod>, n: nat, params: Params)
    requires n <= |periods|
  {
    forall i :: 0 <= i < n ==> PeriodBound(periods[i], i, params)
  }

  ghost predicate PeriodsMeet(periods: seq<SearchPeriod>, p: Program) {
    exists i :: 0 <= i < |periods| && periods[i].startAt <= p.startAt <= periods[i].endAt
  }

  lemma PeriodTruth(period: SearchPeriod, i: nat, p: Program, params: Params, db: Database)
    requires PeriodBound(period, i, params)
    ensures WellFormed(PeriodCondition(i), params)
    ensures Evaluate(PeriodCondition(i), p, params, db) == Yes <==> period.startAt <= p.startAt <= period.endAt
  {
    PairTruth(Compare(StartAt, AtLeast, Indexed("sarchPeriodsStartAt", i)), Compare(StartAt, AtMost, Indexed("sarchPeriodsEndAt", i)),
              p, params, db);
  }

  lemma PeriodsTruth(periods: seq<SearchPeriod>, p: Program, params: Params, db: Database)
    requires PeriodsBound(periods, |periods|, params)
    ensures AllWellFormed(PeriodsPart(periods), params)
    ensures AllYes(PeriodsPart(periods), p, params, db) <==> (periods == [] || PeriodsMeet(periods, p))
  {
    var any := PeriodConditions(|periods|);
    forall i | 0 <= i < |periods|
      ensures WellFormed(any[i], params)
      ensures Evaluate(any[i], p, params, db) == Yes <==> periods[i].startAt <= p.startAt <= periods[i].endAt
    {
      assert PeriodBound(periods[i], i, params);
      PeriodTruth(periods[i], i, p, params, db);
    }
    SingleTruth(Or(any), p, params, db);
  }

  // All the options together

  function KeywordPart(base: string, isIgnore: bool, keyword: Option<string>, option: KeywordOption, db: Database): seq<Condition>
    requires IsBase(base)
  {
    if keyword.None? then []
    else
      var c := KeywordCondition(base, keyword.value, Effective(option, db), db);
      [if isIgnore then Not(c) else c]
  }

  ghost predicate KeywordPartBound(base: string, keyword: Option<string>, option: KeywordOption, params: Params, db: Database)
    requires IsBase(base)
  {
    keyword.Some? ==> KeywordBound(base, keyword.value, Effective(option, db), params, db)
  }

  /** The text matches the keyword as an expression, if that is asked for and can be had, or else has all its words. */
  ghost predicate TextMatches(text: string, keyword: string, option: KeywordOption, db: Database) {
    var cs := option.cs && db.caseSensitivityEnabled;
    if option.regexp && db.regexpEnabled then db.regexp(text, db.toHalfRegExp(keyword), cs)
    else forall words :: Splits(words, db.toHalf(keyword)) ==> AllLike(words, cs, text, db)
  }

  function OrEmpty(text: Option<string>): string { if text.None? then "" else text.value }

  /** One of the texts to look in matches. */
  ghost predicate KeywordMatches(keyword: string, option: KeywordOption, p: Program, db: Database) {
    || (option.name && TextMatches(p.halfWidthName, keyword, option, db))
    || (option.description && TextMatches(OrEmpty(p.halfWidthDescription), keyword, option, db))
    || (option.extended && TextMatches(OrEmpty(p.halfWidthExtended), keyword, option, db))
  }

  ghost predicate KeywordPartMeets(isIgnore: bool, keyword: Option<string>, option: KeywordOption, p: Program, db: Database) {
    keyword.None? || KeywordMatches(keyword.value, option, p, db) != isIgnore
  }

  lemma EffectiveMeets(keyword: string, option: KeywordOption, p: Program, db: Database)
    ensures KeywordMeets(keyword, Effective(option, db), p, db) <==> KeywordMatches(keyword, option, p, db)
  {
    var used := Effective(option, db);
    assert Searches(used, Name) == option.name && Searches(used, Description) == option.description
        && Searches(used, Extended) == option.extended;
    forall field
      ensures FieldMeets(keyword, used, TextOrEmpty(p, field), db) <==> TextMatches(TextOrEmpty(p, field), keyword, option, db)
    {
    }
  }

  /** A keyword selects the programs that match it; an ignored one, all the others. */
  lemma KeywordPartTruth(base: string, isIgnore: bool, keyword: Option<string>, option: KeywordOption, p: Program, params: Params, db: Database)
    requires IsBase(base) && KeywordPartBound(base, keyword, option, params, db)
    ensures var part := KeywordPart(base, isIgnore, keyword, option, db);
      && (AllWellFormed(part, params) <==> keyword.None? || KeywordLegal(option))
      && (AllYes(part, p, params, db) <==> KeywordPartMeets(isIgnore, keyword, option, p, db))
      && forall k :: 0 <= k < |part| ==> Evaluate(part[k], p, params, db) != Unknown
  {
    if keyword.Some? {
      KeywordTruth(base, keyword.value, Effective(option, db), p, params, db);
      EffectiveMeets(keyword.value, option, p, db);
      var c := KeywordCondition(base, keyword.value, Effective(option, db), db);
      if isIgnore { NotTruth(c, p, params, db); }
      SingleTruth(if isIgnore then Not(c) else c, p, params, db);
    }
  }

  lemma NotTruth(c: Condition, p: Program, params: Params, db: Database)
    ensures WellFormed(Not(c), params) <==> WellFormed(c, params)
    ensures Evaluate(Not(c), p, params, db) == Yes <==> Evaluate(c, p, params, db) == No
    ensures Evaluate(Not(c), p, params, db) == Unknown <==> Evaluate(c, p, params, db) == Unknown
  {
  }

  function FreePart(option: RuleSearchOption): seq<Condition> {
    if option.isFree then [Compare(IsFree, Equal, "isFree")] else []
  }

  function LimitPart(limit: Option<int>, operator: Operator, name: string): seq<Condition> {
    if limit.None? then [] else [Compare(Duration, operator, name)]
  }

  ghost predicate LimitBound(limit: Option<int>, name: string, params: Params) {
    limit.Some? ==> Bound(params, name, One(Whole(limit.value * 1000)))
  }

  /** The conditions in the order in which the options are looked at. */
  ghost function Conditions(option: RuleSearchOption, db: Database): seq<Condition> {
    KeywordPart("keyword", false, option.keyword, option.keywordOption, db)
    + KeywordPart("ignoreKeyword", true, option.ignoreKeyword, option.ignoreKeywordOption, db)
    + ChannelPart(option) + GenresPart(Listed(option.genres)) + TimesPart(Listed(option.times)) + FreePart(option)
    + LimitPart(option.durationMin, AtLeast, "durationMin") + LimitPart(option.durationMax, AtMost, "durationMax")
    + PeriodsPart(Listed(option.searchPeriods))
  }

  ghost predicate ConditionsBound(option: RuleSearchOption, params: Params, db: Database) {
    && KeywordPartBound("keyword", option.keyword, option.keywordOption, params, db)
    && KeywordPartBound("ignoreKeyword", option.ignoreKeyword, option.ignoreKeywordOption, params, db)
    && ChannelBound(option, params)
    && GenresBound(Listed(option.genres), |Listed(option.genres)|, params)
    && TimesBound(Listed(option.times), |Listed(option.times)|, params)
    && (option.isFree ==> Bound(params, "isFree", One(Flag(true))))
    && LimitBound(option.durationMin, "durationMin", params)
    && LimitBound(option.durationMax, "durationMax", params)
    && PeriodsBound(Listed(option.searchPeriods), |Listed(option.searchPeriods)|, params)
  }

  /** What a caller can check: keywords have a text to look in, times name a day and at least one hour. */
  ghost predicate Legal(option: RuleSearchOption) {
    && (option.keyword.Some? ==> KeywordLegal(option.keywordOption))
    && (option.ignoreKeyword.Some? ==> KeywordLegal(option.ignoreKeywordOption))
    && TimesLegal(Listed(option.times))
  }

  /** What the options ask of a program. */
  ghost predicate Meets(option: RuleSearchOption, p: Program, db: Database) {
    && KeywordPartMeets(false, option.keyword, option.keywordOption, p, db)
    && KeywordPartMeets(true, option.ignoreKeyword, option.ignoreKeywordOption, p, db)
    && ChannelMeets(option, p)
    && (Listed(option.genres) == [] || GenresMeet(Listed(option.genres), p))
    && (Listed(option.times) == [] || SomeMeets(Listed(option.times), |Listed(option.times)|, p))
    && (option.isFree ==> p.isFree)
    && (option.durationMin.Some? ==> p.duration >= option.durationMin.value * 1000)
    && (option.durationMax.Some? ==> p.duration <= option.durationMax.value * 1000)
    && (Listed(option.searchPeriods) == [] || PeriodsMeet(Listed(option.searchPeriods), p))
  }

  lemma LimitTruth(limit: Option<int>, operator: Operator, name: string, p: Program, params: Params, db: Database)
    requires LimitBound(limit, name, params) && operator != Equal
    ensures AllWellFormed(LimitPart(limit, operator, name), params)
    ensures AllYes(LimitPart(limit, operator, name), p, params, db)
       <==> (limit.Some? ==> if operator == AtLeast then p.duration >= limit.value * 1000 else p.duration <= limit.value * 1000)
  {
    SingleTruth(Compare(Duration, operator, name), p, params, db);
  }

  lemma FreeTruth(option: RuleSearchOption, p: Program, params: Params, db: Database)
    requires option.isFree ==> Bound(params, "isFree", One(Flag(true)))
    ensures AllWellFormed(FreePart(option), params)
    ensures AllYes(FreePart(option), p, params, db) <==> (option.isFree ==> p.isFree)
  {
    SingleTruth(Compare(IsFree, Equal, "isFree"), p, params, db);
  }

  /** The first five groups of conditions, and what they ask. */
  lemma FrontTruth(option: RuleSearchOption, p: Program, params: Params, db: Database)
    requires ConditionsBound(option, params, db)
    ensures var front := KeywordPart("keyword", false, option.keyword, option.keywordOption, db)
        + KeywordPart("ignoreKeyword", true, option.ignoreKeyword, option.ignoreKeywordOption, db)
        + ChannelPart(option) + GenresPart(Listed(option.genres)) + TimesPart(Listed(option.times));
      && (AllWellFormed(front, params) <==> Legal(option))
      && (0 <= p.startHour < 24 && Legal(option) && AllExact(Listed(option.times), |Listed(option.times)|)
          ==> (AllYes(front, p, params, db)
               <==> && KeywordPartMeets(false, option.keyword, option.keywordOption, p, db)
                    && KeywordPartMeets(true, option.ignoreKeyword, option.ignoreKeywordOption, p, db)
                    && ChannelMeets(option, p)
                    && (Listed(option.genres) == [] || GenresMeet(Listed(option.genres), p))
                    && (Listed(option.times) == [] || SomeMeets(Listed(option.times), |Listed(option.times)|, p))))
  {
    var a := KeywordPart("keyword", false, option.keyword, option.keywordOption, db);
    var b := KeywordPart("ignoreKeyword", true, option.ignoreKeyword, option.ignoreKeywordOption, db);
    var c, d, e := ChannelPart(option), GenresPart(Listed(option.genres)), TimesPart(Listed(option.times));
    KeywordPartTruth("keyword", false, option.keyword, option.keywordOption, p, params, db);
    KeywordPartTruth("ignoreKeyword", true, option.ignoreKeyword, option.ignoreKeywordOption, p, params, db);
    ChannelTruth(option, p, params, db);
    GenresTruth(Listed(option.genres), p, params, db);
    TimesTruth(Listed(option.times), p, params, db);
    SomeYesConcat(a, b, p, params, db);
    SomeYesConcat(a + b, c, p, params, db);
    SomeYesConcat(a + b + c, d, p, params, db);
    SomeYesConcat(a + b + c + d, e, p, params, db);
  }

  /**
   The conditions are well formed exactly for legal options, and then hold for exactly the programs
   that meet the options.
   */
  lemma ConditionsTruth(option: RuleSearchOption, p: Program, params: Params, db: Database)
    requires ConditionsBound(option, params, db)
    ensures AllWellFormed(Conditions(option, db), params) <==> Legal(option)
    ensures 0 <= p.startHour < 24 && Legal(option) && AllExact(Listed(option.times), |Listed(option.times)|)
        ==> (AllYes(Conditions(option, db), p, params, db) <==> Meets(option, p, db))
  {
    var front := KeywordPart("keyword", false, option.keyword, option.keywordOption, db)
        + KeywordPart("ignoreKeyword", true, option.ignoreKeyword, option.ignoreKeywordOption, db)
        + ChannelPart(option) + GenresPart(Listed(option.genres)) + TimesPart(Listed(option.times));
    var min, max := LimitPart(option.durationMin, AtLeast, "durationMin"), LimitPart(option.durationMax, AtMost, "durationMax");
    FrontTruth(option, p, params, db);
    FreeTruth(option, p, params, db);
    LimitTruth(option.durationMin, AtLeast, "durationMin", p, params, db);
    LimitTruth(option.durationMax, AtMost, "durationMax", p, params, db);
    PeriodsTruth(Listed(option.searchPeriods), p, params, db);
    SomeYesConcat(front, FreePart(option), p, params, db);
    SomeYesConcat(front + FreePart(option), min, p, params, db);
    SomeYesConcat(front + FreePart(option) + min, max, p, params, db);
    SomeYesConcat(front + FreePart(option) + min + max, PeriodsPart(Listed(option.searchPeriods)), p, params, db);
  }
}
