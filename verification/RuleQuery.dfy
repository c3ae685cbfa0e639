/**
 The query that src/model/db/ProgramDB.ts builds for the search options of a rule: one list of
 conditions and one map of parameters, filled by one method after another.
 */
module RuleQuery {
  import opened Options
  import opened WhereClause
  import opened RuleMeaning

  class Query {
    var strs: seq<Condition>
    var param: Params

    constructor ()
      ensures strs == [] && param == map[]
    {
      strs, param := [], map[];
    }
  }

  ghost predicate Unused(param: Params, bases: set<string>) {
    forall name :: name in param ==> BaseOf(name) !in bases
  }

  ghost predicate Kept(before: Params, after: Params) {
    forall name :: name in before ==> name in after && after[name] == before[name]
  }

  /** No parameter is overwritten, and every new one belongs to one of the bases. */
  ghost predicate Extends(before: Params, after: Params, bases: set<string>) {
    && Kept(before, after)
    && forall name :: name in after && name !in before ==> BaseOf(name) in bases
  }

  /** Step `i` of a loop binds only new names, of the bases and with its own index. */
  ghost predicate Adds(before: Params, after: Params, bases: set<string>, i: nat) {
    && Kept(before, after)
    && forall name :: name in after && name !in before ==> BaseOf(name) in bases && IndexOf(name) == i
  }

  ghost predicate IndexesBelow(param: Params, bases: set<string>, i: nat) {
    forall name :: name in param && BaseOf(name) in bases ==> IndexOf(name) < i
  }

  lemma AddsStep(start: Params, before: Params, after: Params, bases: set<string>, i: nat)
    requires Extends(start, before, bases) && IndexesBelow(before, bases, i) && Adds(before, after, bases, i)
    ensures Extends(start, after, bases) && IndexesBelow(after, bases, i + 1)
  {
  }

  ghost function KeywordBases(base: string): set<string>
    requires IsBase(base)
  {
    {base + "Regexp", LikeBase(base, Name), LikeBase(base, Description), LikeBase(base, Extended)}
  }

  function KeywordOf(base: string, isIgnore: bool, keyword: string, option: KeywordOption, db: Database): Condition
    requires IsBase(base)
  {
    if isIgnore then Not(KeywordCondition(base, keyword, option, db)) else KeywordCondition(base, keyword, option, db)
  }

  ghost predicate LikeWordBound(base: string, field: Field, word: string, i: nat, params: Params)
    requires IsBase(base)
  {
    Bound(params, Indexed(LikeBase(base, field), i), One(Text("%" + word + "%")))
  }

  ghost predicate WordBound(base: string, option: KeywordOption, words: seq<string>, i: nat, params: Params)
    requires IsBase(base) && i < |words|
  {
    forall field :: Searches(option, field) ==> LikeWordBound(base, field, words[i], i, params)
  }

  ghost predicate WordsBound(base: string, option: KeywordOption, words: seq<string>, n: nat, params: Params)
    requires IsBase(base) && n <= |words|
  {
    forall i :: 0 <= i < n ==> WordBound(base, option, words, i, params)
  }

  function LikeAnd(base: string, field: Field, option: KeywordOption, n: nat): (r: seq<Condition>)
    requires IsBase(base)
    ensures |r| == if Searches(option, field) then n else 0
  {
    if Searches(option, field) then LikeConditions(base, field, option.cs, n) else []
  }

  method SetLike(base: string, field: Field, option: KeywordOption, words: seq<string>, i: nat, and: seq<Condition>, query: Query)
    returns (r: seq<Condition>)
    requires IsBase(base) && i < |words| && and == LikeAnd(base, field, option, i)
    requires Indexed(LikeBase(base, field), i) !in query.param
    modifies query`param
    ensures Adds(old(query.param), query.param, {LikeBase(base, field)}, i)
    ensures Searches(option, field) ==> LikeWordBound(base, field, words[i], i, query.param)
    ensures r == LikeAnd(base, field, option, i + 1)
  {
    r := and;
    if Searches(option, field) {
      var valueName := Indexed(LikeBase(base, field), i);
      r := and + [Matches(field, field != Name, Like, option.cs, valueName)];
      query.param := query.param[valueName := One(Text("%" + words[i] + "%"))];
    }
  }

  method SetWord(base: string, option: KeywordOption, words: seq<string>, i: nat,
                 nameAnd: seq<Condition>, descriptionAnd: seq<Condition>, extendedAnd: seq<Condition>, query: Query)
    returns (names: seq<Condition>, descriptions: seq<Condition>, extendeds: seq<Condition>)
    requires IsBase(base) && i < |words| && IndexesBelow(query.param, KeywordBases(base), i)
    requires nameAnd == LikeAnd(base, Name, option, i) && descriptionAnd == LikeAnd(base, Description, option, i)
    requires extendedAnd == LikeAnd(base, Extended, option, i)
    modifies query`param
    ensures Adds(old(query.param), query.param, KeywordBases(base), i)
    ensures WordBound(base, option, words, i, query.param)
    ensures names == LikeAnd(base, Name, option, i + 1) && descriptions == LikeAnd(base, Description, option, i + 1)
    ensures extendeds == LikeAnd(base, Extended, option, i + 1)
  {
    names := SetLike(base, Name, option, words, i, nameAnd, query);
    ghost var named := query.param;
    descriptions := SetLike(base, Description, option, words, i, descriptionAnd, query);
    ghost var described := query.param;
    extendeds := SetLike(base, Extended, option, words, i, extendedAnd, query);
    WordAdded(base, option, words, i, old(query.param), named, described, query.param);
  }

  lemma WordAdded(base: string, option: KeywordOption, words: seq<string>, i: nat, a: Params, b: Params, c: Params, d: Params)
    requires IsBase(base) && i < |words|
    requires Adds(a, b, {LikeBase(base, Name)}, i) && (option.name ==> LikeWordBound(base, Name, words[i], i, b))
    requires Adds(b, c, {LikeBase(base, Description)}, i) && (option.description ==> LikeWordBound(base, Description, words[i], i, c))
    requires Adds(c, d, {LikeBase(base, Extended)}, i) && (option.extended ==> LikeWordBound(base, Extended, words[i], i, d))
    ensures Adds(a, d, KeywordBases(base), i) && WordBound(base, option, words, i, d)
  {
    assert Kept(a, d);
  }

  lemma FieldsAppend(base: string, fields: seq<Field>, field: Field, keyword: string, option: KeywordOption, db: Database)
    requires IsBase(base)
    ensures FieldConditions(base, fields + [field], keyword, option, db)
         == FieldConditions(base, fields, keyword, option, db) + [FieldCondition(base, field, keyword, option, db)]
  {
  }

  method AddField(base: string, ghost fields: seq<Field>, field: Field, keyword: string, option: KeywordOption, ghost db: Database,
                  or: seq<Condition>, searched: bool, condition: Condition)
    returns (r: seq<Condition>, ghost more: seq<Field>)
    requires IsBase(base) && or == FieldConditions(base, fields, keyword, option, db)
    requires searched == Searches(option, field) && (searched ==> condition == FieldCondition(base, field, keyword, option, db))
    ensures more == fields + FieldIf(option, field)
    ensures r == FieldConditions(base, more, keyword, option, db)
  {
    r, more := or, fields;
    if searched {
      FieldsAppend(base, fields, field, keyword, option, db);
      r, more := or + [condition], fields + [field];
    } else {
      assert fields + [] == fields;
    }
  }

  method RegexpConditions(base: string, keyword: string, option: KeywordOption, ghost db: Database) returns (or: seq<Condition>)
    requires IsBase(base) && option.regexp
    ensures or == FieldConditions(base, Searched(option), keyword, option, db)
  {
    var valueName := base + "Regexp";
    ghost var fields: seq<Field> := [];
    or := [];
    or, fields := AddField(base, fields, Name, keyword, option, db, or, option.name, Matches(Name, false, Regexp, option.cs, valueName));
    or, fields := AddField(base, fields, Description, keyword, option, db, or, option.description,
                           Matches(Description, true, Regexp, option.cs, valueName));
    or, fields := AddField(base, fields, Extended, keyword, option, db, or, option.extended,
                           Matches(Extended, true, Regexp, option.cs, valueName));
  }

  lemma GroupIsField(base: string, field: Field, keyword: string, option: KeywordOption, db: Database, and: seq<Condition>)
    requires IsBase(base) && !option.regexp && and == LikeAnd(base, field, option, |Words(db.toHalf(keyword))|)
    ensures |and| > 0 <==> Searches(option, field)
    ensures |and| > 0 ==> And(and) == FieldCondition(base, field, keyword, option, db)
  {
  }

  method LikeGroups(base: string, keyword: string, option: KeywordOption, ghost db: Database,
                    nameAnd: seq<Condition>, descriptionAnd: seq<Condition>, extendedAnd: seq<Condition>)
    returns (or: seq<Condition>)
    requires IsBase(base) && !option.regexp
    requires var n := |Words(db.toHalf(keyword))|;
      && nameAnd == LikeAnd(base, Name, option, n) && descriptionAnd == LikeAnd(base, Description, option, n)
      && extendedAnd == LikeAnd(base, Extended, option, n)
    ensures or == FieldConditions(base, Searched(option), keyword, option, db)
  {
    GroupIsField(base, Name, keyword, option, db, nameAnd);
    GroupIsField(base, Description, keyword, option, db, descriptionAnd);
    GroupIsField(base, Extended, keyword, option, db, extendedAnd);
    ghost var fields: seq<Field> := [];
    or := [];
    or, fields := AddField(base, fields, Name, keyword, option, db, or, |nameAnd| > 0, And(nameAnd));
    or, fields := AddField(base, fields, Description, keyword, option, db, or, |descriptionAnd| > 0, And(descriptionAnd));
    or, fields := AddField(base, fields, Extended, keyword, option, db, or, |extendedAnd| > 0, And(extendedAnd));
  }

  lemma WordsAreBound(base: string, keyword: string, option: KeywordOption, params: Params, db: Database)
    requires IsBase(base) && !option.regexp
    requires var words := Words(db.toHalf(keyword)); WordsBound(base, option, words, |words|, params)
    ensures KeywordBound(base, keyword, option, params, db)
  {
    var words := Words(db.toHalf(keyword));
    forall field, k | Searches(option, field) && 0 <= k < |words|
      ensures Bound(params, Indexed(LikeBase(base, field), k), One(Text("%" + words[k] + "%")))
    {
      assert WordBound(base, option, words, k, params);
      assert LikeWordBound(base, field, words[k], k, params);
    }
  }

  method SetKeywordOption(keyword: string, option: KeywordOption, base: string, isIgnore: bool, query: Query, db: Database)
    requires IsBase(base) && Unused(query.param, KeywordBases(base))
    modifies query
    ensures Extends(old(query.param), query.param, KeywordBases(base))
    ensures KeywordBound(base, keyword, option, query.param, db)
    ensures query.strs == old(query.strs) + [KeywordOf(base, isIgnore, keyword, option, db)]
  {
    var or: seq<Condition>;
    if option.regexp {
      var valueName := base + "Regexp";
      query.param := query.param[valueName := One(Text(db.toHalfRegExp(keyword)))];
      or := RegexpConditions(base, keyword, option, db);
    } else {
      or := SetLikes(keyword, option, base, query, db);
    }
    query.strs := query.strs + [if isIgnore then Not(Or(or)) else Or(or)];
  }

  method SetLikes(keyword: string, option: KeywordOption, base: string, query: Query, db: Database) returns (or: seq<Condition>)
    requires IsBase(base) && Unused(query.param, KeywordBases(base)) && !option.regexp
    modifies query`param
    ensures Extends(old(query.param), query.param, KeywordBases(base))
    ensures KeywordBound(base, keyword, option, query.param, db)
    ensures or == FieldConditions(base, Searched(option), keyword, option, db)
  {
    var words := Words(db.toHalf(keyword));
    var nameAnd: seq<Condition>, descriptionAnd: seq<Condition>, extendedAnd: seq<Condition> := [], [], [];
    for i := 0 to |words|
      invariant nameAnd == LikeAnd(base, Name, option, i)
      invariant descriptionAnd == LikeAnd(base, Description, option, i)
      invariant extendedAnd == LikeAnd(base, Extended, option, i)
      invariant Extends(old(query.param), query.param, KeywordBases(base)) && IndexesBelow(query.param, KeywordBases(base), i)
      invariant WordsBound(base, option, words, i, query.param)
    {
      ghost var before := query.param;
      nameAnd, descriptionAnd, extendedAnd := SetWord(base, option, words, i, nameAnd, descriptionAnd, extendedAnd, query);
      AddsStep(old(query.param), before, query.param, KeywordBases(base), i);
      WordsBoundStep(base, option, words, i, before, query.param);
    }
    or := LikeGroups(base, keyword, option, db, nameAnd, descriptionAnd, extendedAnd);
    WordsAreBound(base, keyword, option, query.param, db);
  }

  lemma WordsBoundStep(base: string, option: KeywordOption, words: seq<string>, i: nat, before: Params, after: Params)
    requires IsBase(base) && i < |words| && WordsBound(base, option, words, i, before)
    requires Adds(before, after, KeywordBases(base), i) && WordBound(base, option, words, i, after)
    ensures WordsBound(base, option, words, i + 1, after)
  {
    forall k | 0 <= k < i ensures WordBound(base, option, words, k, after) {
      assert WordBound(base, option, words, k, before);
    }
  }

  method SetInQuery(query: Query, column: Column, name: string, values: seq<Value>)
    requires Unused(query.param, {BaseOf(name)})
    modifies query
    ensures values == [] ==> query.strs == old(query.strs) && query.param == old(query.param)
    ensures values != [] ==> query.strs == old(query.strs) + [In(column, name)] && query.param == old(query.param)[name := Many(values)]
    ensures Extends(old(query.param), query.param, {BaseOf(name)})
  {
    if |values| == 0 { return; }
    query.strs := query.strs + [In(column, name)];
    query.param := query.param[name := Many(values)];
  }

  predicate UpTo(name: string, n: nat) {
    exists i :: 1 <= i < n && name == Indexed("NW", i)
  }

  method ChannelTypes(option: RuleSearchOption) returns (types: seq<Value>)
    ensures forall v :: v in types <==> v.Text? && v.text in option.channelTypes && IsChannelType(v.text)
  {
    types := [];
    var fixed := ["GR", "GR-ALT", "BS", "CS", "SKY", "BS4K"];
    for i := 0 to |fixed|
      invariant forall v :: v in types <==> v.Text? && v.text in option.channelTypes && v.text in fixed[..i]
    {
      assert fixed[..i + 1] == fixed[..i] + [fixed[i]];
      if fixed[i] in option.channelTypes { types := types + [Text(fixed[i])]; }
    }
    assert fixed[..|fixed|] == fixed;
    for i := 1 to 41
      invariant forall v :: v in types <==> v.Text? && v.text in option.channelTypes && (v.text in fixed || UpTo(v.text, i))
    {
      var name := Indexed("NW", i);
      if name in option.channelTypes { types := types + [Text(name)]; }
    }
  }

  method SetChannelQuery(option: RuleSearchOption, query: Query)
    requires Unused(query.param, {"channelId", "channelType"})
    modifies query
    ensures Extends(old(query.param), query.param, {"channelId", "channelType"})
    ensures ChannelBound(option, query.param)
    ensures query.strs == old(query.strs) + ChannelPart(option)
  {
    if option.channelIds.Some? && |option.channelIds.value| > 0 {
      var ids := option.channelIds.value;
      var values := seq(|ids|, i requires 0 <= i < |ids| => Whole(ids[i]));
      SetInQuery(query, ChannelId, "channelId", values);
      forall v ensures v in values <==> v.Whole? && v.number in ids {
        if v.Whole? && v.number in ids {
          var i :| 0 <= i < |ids| && ids[i] == v.number;
          assert values[i] == v;
        }
      }
    } else {
      var types := ChannelTypes(option);
      SetInQuery(query, ChannelType, "channelType", types);
      if types != [] { assert types[0] in types; }
      assert types == [] <==> NoChannelType(option) by {
        if name :| name in option.channelTypes && IsChannelType(name) { assert Text(name) in types; }
      }
    }
  }

  method SetGenresQuery(option: RuleSearchOption, query: Query)
    requires Unused(query.param, {"genre", "subgenre"})
    modifies query
    ensures Extends(old(query.param), query.param, {"genre", "subgenre"})
    ensures GenresBound(Listed(option.genres), |Listed(option.genres)|, query.param)
    ensures query.strs == old(query.strs) + GenresPart(Listed(option.genres))
  {
    if option.genres.None? || |option.genres.value| == 0 { return; }
    var genres := option.genres.value;
    var strs: seq<Condition> := [];
    for i := 0 to |genres|
      invariant query.strs == old(query.strs) && strs == GenreConditions(genres, i)
      invariant Extends(old(query.param), query.param, {"genre", "subgenre"}) && IndexesBelow(query.param, {"genre", "subgenre"}, i)
      invariant GenresBound(genres, i, query.param)
    {
      ghost var before := query.param;
      var condition := SetGenre(genres[i], i, query);
      AddsStep(old(query.param), before, query.param, {"genre", "subgenre"}, i);
      GenresBoundStep(genres, i, before, query.param);
      strs := strs + [condition];
    }
    query.strs := query.strs + [Or(strs)];
  }

  method SetGenre(g: Genre, i: nat, query: Query) returns (condition: Condition)
    requires IndexesBelow(query.param, {"genre", "subgenre"}, i)
    modifies query`param
    ensures Adds(old(query.param), query.param, {"genre", "subgenre"}, i)
    ensures GenreBound(g, i, query.param) && condition == GenreCondition(g, i)
  {
    var genreBaseName, subGenreBaseName := Indexed("genre", i), Indexed("subgenre", i);
    query.param := query.param[genreBaseName := One(Whole(g.genre))];
    if g.subGenre.None? {
      condition := Or([Compare(Genre1, Equal, genreBaseName), Compare(Genre2, Equal, genreBaseName), Compare(Genre3, Equal, genreBaseName)]);
    } else {
      condition := Or([
        And([Compare(Genre1, Equal, genreBaseName), Compare(SubGenre1, Equal, subGenreBaseName)]),
        And([Compare(Genre2, Equal, genreBaseName), Compare(SubGenre2, Equal, subGenreBaseName)]),
        And([Compare(Genre3, Equal, genreBaseName), Compare(SubGenre3, Equal, subGenreBaseName)])]);
      query.param := query.param[subGenreBaseName := One(Whole(g.subGenre.value))];
    }
  }

  lemma GenresBoundStep(genres: seq<Genre>, i: nat, before: Params, after: Params)
    requires i < |genres| && GenresBound(genres, i, before) && GenreBound(genres[i], i, after)
    requires Adds(before, after, {"genre", "subgenre"}, i)
    ensures GenresBound(genres, i + 1, after)
  {
    forall k | 0 <= k < i ensures GenreBound(genres[k], k, after) {
      assert GenreBound(genres[k], k, before);
    }
  }

  method Weekdays(week: int) returns (weeks: seq<Value>)
    ensures forall v :: v in weeks <==> v.Whole? && HasDay(week, v.number)
    ensures weeks == [] <==> NoDay(week)
  {
    weeks := [];
    for day := 0 to 7
      invariant forall v :: v in weeks <==> v.Whole? && v.number < day && HasDay(week, v.number)
    {
      if HasDay(week, day) { weeks := weeks + [Whole(day)]; }
    }
    SomeMember(weeks);
    assert forall day :: HasDay(week, day) ==> Whole(day) in weeks;
  }

  method Hours(start: int, range: int) returns (hours: seq<Value>)
    requires range != 1
    ensures forall v :: v in hours <==> v.Whole? && HourListed(start, range, v.number)
  {
    hours := [];
    var j := start;
    while j <= start + range - 1
      invariant j >= start && (j <= start + range || j == start)
      invariant forall v :: v in hours <==> v.Whole? && exists i :: start <= i < j && Remainder(i, 24) == v.number
    {
      hours := hours + [Whole(Remainder(j, 24))];
      j := j + 1;
    }
  }

  method SetTimesQuery(option: RuleSearchOption, query: Query)
    requires Unused(query.param, {"week", "time"})
    modifies query
    ensures Extends(old(query.param), query.param, {"week", "time"})
    ensures TimesBound(Listed(option.times), |Listed(option.times)|, query.param)
    ensures query.strs == old(query.strs) + TimesPart(Listed(option.times))
  {
    if option.times.None? || |option.times.value| == 0 { return; }
    var times := option.times.value;
    var strs: seq<Condition> := [];
    for i := 0 to |times|
      invariant query.strs == old(query.strs) && strs == TimeConditions(times, i)
      invariant Extends(old(query.param), query.param, {"week", "time"}) && IndexesBelow(query.param, {"week", "time"}, i)
      invariant TimesBound(times, i, query.param)
    {
      var weeks := Weekdays(times[i].week);
      if |weeks| == 0 { continue; }
      ghost var before := query.param;
      var condition := SetTime(times[i], i, weeks, query);
      AddsStep(old(query.param), before, query.param, {"week", "time"}, i);
      TimesBoundStep(times, i, before, query.param);
      strs := strs + [condition];
    }
    query.strs := query.strs + [Or(strs)];
  }

  lemma TimesBoundStep(times: seq<SearchTime>, i: nat, before: Params, after: Params)
    requires i < |times| && TimesBound(times, i, before) && TimeBound(times[i], i, after)
    requires Adds(before, after, {"week", "time"}, i)
    ensures TimesBound(times, i + 1, after)
  {
    forall k | 0 <= k < i && !NoDay(times[k].week) ensures TimeBound(times[k], k, after) {
      assert TimeBound(times[k], k, before);
    }
  }

  method SetTime(t: SearchTime, i: nat, weeks: seq<Value>, query: Query) returns (condition: Condition)
    requires forall v :: v in weeks <==> v.Whole? && HasDay(t.week, v.number)
    requires IndexesBelow(query.param, {"week", "time"}, i)
    modifies query`param
    ensures Adds(old(query.param), query.param, {"week", "time"}, i)
    ensures TimeBound(t, i, query.param) && condition == TimeCondition(t, i)
  {
    condition := In(Week, Indexed("week", i));
    query.param := query.param[Indexed("week", i) := Many(weeks)];
    if t.start.Some? && t.range.Some? {
      var start, range := t.start.value, t.range.value;
      var endTime := start + range - 1;
      if start == endTime {
        condition := And([condition, Compare(StartHour, Equal, Indexed("time", i))]);
        query.param := query.param[Indexed("time", i) := One(Whole(start))];
      } else {
        var times := Hours(start, range);
        condition := And([condition, In(StartHour, Indexed("time", i))]);
        query.param := query.param[Indexed("time", i) := Many(times)];
      }
    }
  }

  method SetKeywordQuery(option: RuleSearchOption, query: Query, db: Database)
    requires Unused(query.param, KeywordBases("keyword") + KeywordBases("ignoreKeyword"))
    modifies query
    ensures Extends(old(query.param), query.param, KeywordBases("keyword") + KeywordBases("ignoreKeyword"))
    ensures KeywordPartBound("keyword", option.keyword, option.keywordOption, query.param, db)
    ensures KeywordPartBound("ignoreKeyword", option.ignoreKeyword, option.ignoreKeywordOption, query.param, db)
    ensures query.strs == old(query.strs) + KeywordPart("keyword", false, option.keyword, option.keywordOption, db)
                          + KeywordPart("ignoreKeyword", true, option.ignoreKeyword, option.ignoreKeywordOption, db)
  {
    if option.keyword.Some? {
      SetKeywordOption(option.keyword.value, Effective(option.keywordOption, db), "keyword", false, query, db);
    }
    ghost var between := query.param;
    KeywordsApart();
    if option.ignoreKeyword.Some? {
      SetKeywordOption(option.ignoreKeyword.value, Effective(option.ignoreKeywordOption, db), "ignoreKeyword", true, query, db);
    }
    KeywordPartStays("keyword", option.keyword, option.keywordOption, between, query.param, db);
  }

  lemma KeywordPartStays(base: string, keyword: Option<string>, option: KeywordOption, before: Params, after: Params, db: Database)
    requires IsBase(base) && Kept(before, after) && KeywordPartBound(base, keyword, option, before, db)
    ensures KeywordPartBound(base, keyword, option, after, db)
  {
  }

  lemma KeywordsApart()
    ensures KeywordBases("keyword") !! KeywordBases("ignoreKeyword")
  {
    assert forall name :: name in KeywordBases("keyword") ==> "keyword" <= name;
    assert forall name :: name in KeywordBases("ignoreKeyword") ==> "ignoreKeyword" <= name;
    assert "keyword"[0] == 'k' && "ignoreKeyword"[0] == 'i';
  }

  method SetFreeQuery(option: RuleSearchOption, query: Query)
    requires Unused(query.param, {"isFree"})
    modifies query
    ensures Extends(old(query.param), query.param, {"isFree"})
    ensures option.isFree ==> Bound(query.param, "isFree", One(Flag(true)))
    ensures query.strs == old(query.strs) + FreePart(option)
  {
    if !option.isFree { return; }
    query.strs := query.strs + [Compare(IsFree, Equal, "isFree")];
    query.param := query.param["isFree" := One(Flag(true))];
  }

  method SetDurationMinQuery(option: RuleSearchOption, query: Query)
    requires Unused(query.param, {"durationMin"})
    modifies query
    ensures Extends(old(query.param), query.param, {"durationMin"})
    ensures LimitBound(option.durationMin, "durationMin", query.param)
    ensures query.strs == old(query.strs) + LimitPart(option.durationMin, AtLeast, "durationMin")
  {
    if option.durationMin.None? { return; }
    query.strs := query.strs + [Compare(Duration, AtLeast, "durationMin")];
    query.param := query.param["durationMin" := One(Whole(option.durationMin.value * 1000))];
  }

  method SetDurationMaxQuery(option: RuleSearchOption, query: Query)
    requires Unused(query.param, {"durationMax"})
    modifies query
    ensures Extends(old(query.param), query.param, {"durationMax"})
    ensures LimitBound(option.durationMax, "durationMax", query.param)
    ensures query.strs == old(query.strs) + LimitPart(option.durationMax, AtMost, "durationMax")
  {
    if option.durationMax.None? { return; }
    query.strs := query.strs + [Compare(Duration, AtMost, "durationMax")];
    query.param := query.param["durationMax" := One(Whole(option.durationMax.value * 1000))];
  }

  ghost function PeriodBases(): set<string> { {"sarchPeriodsStartAt", "sarchPeriodsEndAt"} }

  method SetSearchPeriodsQuery(option: RuleSearchOption, query: Query)
    requires Unused(query.param, PeriodBases())
    modifies query
    ensures Extends(old(query.param), query.param, PeriodBases())
    ensures PeriodsBound(Listed(option.searchPeriods), |Listed(option.searchPeriods)|, query.param)
    ensures query.strs == old(query.strs) + PeriodsPart(Listed(option.searchPeriods))
  {
    if option.searchPeriods.None? || |option.searchPeriods.value| == 0 { return; }
    var periods := option.searchPeriods.value;
    var or: seq<Condition> := [];
    for i := 0 to |periods|
      invariant query.strs == old(query.strs) && or == PeriodConditions(i)
      invariant Extends(old(query.param), query.param, PeriodBases()) && IndexesBelow(query.param, PeriodBases(), i)
      invariant PeriodsBound(periods, i, query.param)
    {
      ghost var before := query.param;
      var condition := SetPeriod(periods[i], i, query);
      AddsStep(old(query.param), before, query.param, PeriodBases(), i);
      PeriodsBoundStep(periods, i, before, query.param);
      or := or + [condition];
    }
    query.strs := query.strs + [Or(or)];
  }

  method SetPeriod(period: SearchPeriod, i: nat, query: Query) returns (condition: Condition)
    requires IndexesBelow(query.param, PeriodBases(), i)
    modifies query`param
    ensures Adds(old(query.param), query.param, PeriodBases(), i)
    ensures PeriodBound(period, i, query.param) && condition == PeriodCondition(i)
  {
    var startAtColumn, endAtColumn := Indexed("sarchPeriodsStartAt", i), Indexed("sarchPeriodsEndAt", i);
    assert |"sarchPeriodsStartAt"| != |"sarchPeriodsEndAt"|;
    query.param := query.param[startAtColumn := One(Whole(period.startAt))];
    query.param := query.param[endAtColumn := One(Whole(period.endAt))];
    condition := And([Compare(StartAt, AtLeast, startAtColumn), Compare(StartAt, AtMost, endAtColumn)]);
  }

  lemma PeriodsBoundStep(periods: seq<SearchPeriod>, i: nat, before: Params, after: Params)
    requires i < |periods| && PeriodsBound(periods, i, before) && PeriodBound(periods[i], i, after) && Kept(before, after)
    ensures PeriodsBound(periods, i + 1, after)
  {
    forall k | 0 <= k < i ensures PeriodBound(periods[k], k, after) {
      assert PeriodBound(periods[k], k, before);
    }
  }

  // The whole query

  ghost function Group(k: nat): set<string> {
    match k
    case 0 => KeywordBases("keyword") + KeywordBases("ignoreKeyword")
    case 1 => {"channelId", "channelType"}
    case 2 => {"genre", "subgenre"}
    case 3 => {"week", "time"}
    case 4 => {"isFree"}
    case 5 => {"durationMin"}
    case 6 => {"durationMax"}
    case _ => PeriodBases()
  }

  function At(name: string, i: nat): char {
    if i < |name| then name[i] else ' '
  }

  /** Which option a parameter belongs to, by the letters of its name. */
  function GroupOf(name: string): nat {
    if At(name, 0) == 'k' || (At(name, 0) == 'i' && At(name, 1) == 'g') then 0
    else if At(name, 0) == 'c' then 1
    else if At(name, 0) == 'g' || (At(name, 0) == 's' && At(name, 1) == 'u') then 2
    else if At(name, 0) == 'w' || At(name, 0) == 't' then 3
    else if At(name, 0) == 'i' then 4
    else if At(name, 0) == 'd' && At(name, 9) == 'i' then 5
    else if At(name, 0) == 'd' then 6
    else 7
  }

  lemma GroupsApart(k: nat)
    requires k < 8
    ensures forall name :: name in Group(k) ==> GroupOf(name) == k
  {
    forall name | name in Group(k) ensures GroupOf(name) == k {
      if k == 0 {
        assert "keyword" <= name || "ignoreKeyword" <= name;
        assert "keyword"[0] == 'k' && "ignoreKeyword"[0] == 'i' && "ignoreKeyword"[1] == 'g';
      }
    }
  }

  /** Every parameter so far belongs to an option before `k`. */
  ghost predicate Below(param: Params, k: nat) {
    forall name :: name in param ==> GroupOf(BaseOf(name)) < k
  }

  lemma NextUnused(param: Params, k: nat)
    requires k < 8 && Below(param, k)
    ensures Unused(param, Group(k))
  {
    GroupsApart(k);
  }

  lemma NextBelow(before: Params, after: Params, k: nat)
    requires k < 8 && Below(before, k) && Extends(before, after, Group(k))
    ensures Below(after, k + 1)
  {
    GroupsApart(k);
  }

  ghost predicate BoundUpTo(option: RuleSearchOption, k: nat, params: Params, db: Database) {
    && (k > 0 ==> KeywordPartBound("keyword", option.keyword, option.keywordOption, params, db)
                  && KeywordPartBound("ignoreKeyword", option.ignoreKeyword, option.ignoreKeywordOption, params, db))
    && (k > 1 ==> ChannelBound(option, params))
    && (k > 2 ==> GenresBound(Listed(option.genres), |Listed(option.genres)|, params))
    && (k > 3 ==> TimesBound(Listed(option.times), |Listed(option.times)|, params))
    && (k > 4 && option.isFree ==> Bound(params, "isFree", One(Flag(true))))
    && (k > 5 ==> LimitBound(option.durationMin, "durationMin", params))
    && (k > 6 ==> LimitBound(option.durationMax, "durationMax", params))
    && (k > 7 ==> PeriodsBound(Listed(option.searchPeriods), |Listed(option.searchPeriods)|, params))
  }

  lemma GenresStay(genres: seq<Genre>, n: nat, before: Params, after: Params)
    requires n <= |genres| && GenresBound(genres, n, before) && Kept(before, after)
    ensures GenresBound(genres, n, after)
  {
    forall i | 0 <= i < n ensures GenreBound(genres[i], i, after) { assert GenreBound(genres[i], i, before); }
  }

  lemma TimesStay(times: seq<SearchTime>, n: nat, before: Params, after: Params)
    requires n <= |times| && TimesBound(times, n, before) && Kept(before, after)
    ensures TimesBound(times, n, after)
  {
    forall i | 0 <= i < n && !NoDay(times[i].week) ensures TimeBound(times[i], i, after) { assert TimeBound(times[i], i, before); }
  }

  lemma StaysBound(option: RuleSearchOption, k: nat, before: Params, after: Params, db: Database)
    requires k < 8 && BoundUpTo(option, k, before, db) && Kept(before, after)
    ensures BoundUpTo(option, k, after, db)
  {
    if k > 0 {
      KeywordPartStays("keyword", option.keyword, option.keywordOption, before, after, db);
      KeywordPartStays("ignoreKeyword", option.ignoreKeyword, option.ignoreKeywordOption, before, after, db);
    }
    if k > 2 { GenresStay(Listed(option.genres), |Listed(option.genres)|, before, after); }
    if k > 3 { TimesStay(Listed(option.times), |Listed(option.times)|, before, after); }
  }

  lemma NextOption(option: RuleSearchOption, k: nat, before: Params, after: Params, db: Database)
    requires k < 8 && Below(before, k) && Extends(before, after, Group(k)) && BoundUpTo(option, k, before, db)
    ensures Below(after, k + 1) && BoundUpTo(option, k, after, db)
    ensures k < 7 ==> Unused(after, Group(k + 1))
  {
    NextBelow(before, after, k);
    StaysBound(option, k, before, after, db);
    if k < 7 { NextUnused(after, k + 1); }
  }

  method SetQueries(option: RuleSearchOption, query: Query, db: Database)
    requires query.strs == [] && query.param == map[]
    modifies query
    ensures query.strs == Conditions(option, db) && ConditionsBound(option, query.param, db)
  {
    ghost var before := query.param;
    SetKeywordQuery(option, query, db);
    assert query.strs == KeywordPart("keyword", false, option.keyword, option.keywordOption, db)
                         + KeywordPart("ignoreKeyword", true, option.ignoreKeyword, option.ignoreKeywordOption, db);
    NextOption(option, 0, before, query.param, db);
    before := query.param;
    SetChannelQuery(option, query);
    NextOption(option, 1, before, query.param, db);
    before := query.param;
    SetGenresQuery(option, query);
    NextOption(option, 2, before, query.param, db);
    before := query.param;
    SetTimesQuery(option, query);
    NextOption(option, 3, before, query.param, db);
    before := query.param;
    SetFreeQuery(option, query);
    NextOption(option, 4, before, query.param, db);
    before := query.param;
    SetDurationMinQuery(option, query);
    NextOption(option, 5, before, query.param, db);
    before := query.param;
    SetDurationMaxQuery(option, query);
    NextOption(option, 6, before, query.param, db);
    before := query.param;
    SetSearchPeriodsQuery(option, query);
    NextOption(option, 7, before, query.param, db);
    assert BoundUpTo(option, 8, query.param, db);
  }

  /** No option that would restrict the programs is given. */
  ghost predicate NoOption(option: RuleSearchOption) {
    && option.keyword.None? && option.ignoreKeyword.None?
    && Listed(option.channelIds) == [] && NoChannelType(option)
    && Listed(option.genres) == [] && Listed(option.times) == [] && Listed(option.searchPeriods) == []
    && !option.isFree && option.durationMin.None? && option.durationMax.None?
  }

  /**
   The condition of a rule; None stands for the error that the rule has no option. The condition is
   well formed exactly for legal options, and true exactly for the programs that meet them.
   */
  method FindRule(option: RuleSearchOption, db: Database) returns (condition: Option<Condition>, param: Params)
    ensures condition.None? <==> NoOption(option)
    ensures condition.Some? ==> (WellFormed(condition.value, param) <==> Legal(option))
    ensures condition.Some? && Legal(option) && AllExact(Listed(option.times), |Listed(option.times)|)
        ==> forall p: Program :: 0 <= p.startHour < 24
              ==> (Evaluate(condition.value, p, param, db) == Yes <==> Meets(option, p, db))
  {
    var query := new Query();
    SetQueries(option, query, db);
    var strs := query.strs;
    param := query.param;
    if |strs| == 0 { return None, param; }
    condition := Some(And(strs));
    ghost var anyone: Program := *;
    QueryTruth(option, anyone, param, db);
    forall p: Program | 0 <= p.startHour < 24 && Legal(option) && AllExact(Listed(option.times), |Listed(option.times)|)
      ensures Evaluate(And(strs), p, param, db) == Yes <==> Meets(option, p, db)
    {
      QueryTruth(option, p, param, db);
    }
  }

  lemma QueryTruth(option: RuleSearchOption, p: Program, params: Params, db: Database)
    requires ConditionsBound(option, params, db) && Conditions(option, db) != []
    ensures WellFormed(And(Conditions(option, db)), params) <==> Legal(option)
    ensures 0 <= p.startHour < 24 && Legal(option) && AllExact(Listed(option.times), |Listed(option.times)|)
        ==> (Evaluate(And(Conditions(option, db)), p, params, db) == Yes <==> Meets(option, p, db))
  {
    ConditionsTruth(option, p, params, db);
    JoinedTruth(Conditions(option, db), p, params, db);
  }

  lemma JoinedTruth(all: seq<Condition>, p: Program, params: Params, db: Database)
    requires all != []
    ensures Evaluate(And(all), p, params, db) == Yes <==> AllYes(all, p, params, db)
    ensures WellFormed(And(all), params) <==> AllWellFormed(all, params)
  {
  }
}
