/**
 WHERE conditions with named parameters, and their truth for one program under three-valued
 logic (section 8.12 of ISO/IEC 9075:1992). Matching by LIKE and by regular expression is left
 to the database.
 */
module WhereClause {
  import opened Options

  datatype Program = Program(
    halfWidthName: string, halfWidthDescription: Option<string>, halfWidthExtended: Option<string>,
    channelId: int, channelType: string,
    genre1: Option<int>, subGenre1: Option<int>,
    genre2: Option<int>, subGenre2: Option<int>,
    genre3: Option<int>, subGenre3: Option<int>,
    week: int, startHour: int, isFree: bool, duration: int, startAt: int)

  datatype Field = Name | Description | Extended

  datatype Column =
    | ChannelId | ChannelType
    | Genre1 | SubGenre1 | Genre2 | SubGenre2 | Genre3 | SubGenre3
    | Week | StartHour | IsFree | Duration | StartAt

  datatype Value = Whole(number: int) | Text(text: string) | Flag(flag: bool)

  datatype Param = One(value: Value) | Many(values: seq<Value>)

  datatype Operator = Equal | AtLeast | AtMost

  datatype Matcher = Like | Regexp

  /** `coalesced`: an absent text is read as the empty text. */
  datatype Condition =
    | Compare(column: Column, operator: Operator, name: string)
    | In(column: Column, name: string)
    | Matches(field: Field, coalesced: bool, matcher: Matcher, caseSensitive: bool, name: string)
    | And(all: seq<Condition>)
    | Or(any: seq<Condition>)
    | Not(negated: Condition)

  /** What depends on the database in use, and the character folding of the search. */
  datatype Database = Database(
    like: (string, string, bool) -> bool, regexp: (string, string, bool) -> bool,
    toHalf: string -> string, toHalfRegExp: string -> string,
    caseSensitivityEnabled: bool, regexpEnabled: bool)

  datatype Truth = Yes | No | Unknown

  function FromBool(b: bool): Truth { if b then Yes else No }

  function ValueOf(p: Program, column: Column): Option<Value> {
    match column
    case ChannelId => Some(Whole(p.channelId))
    case ChannelType => Some(Text(p.channelType))
    case Genre1 => Number(p.genre1)
    case SubGenre1 => Number(p.subGenre1)
    case Genre2 => Number(p.genre2)
    case SubGenre2 => Number(p.subGenre2)
    case Genre3 => Number(p.genre3)
    case SubGenre3 => Number(p.subGenre3)
    case Week => Some(Whole(p.week))
    case StartHour => Some(Whole(p.startHour))
    case IsFree => Some(Flag(p.isFree))
    case Duration => Some(Whole(p.duration))
    case StartAt => Some(Whole(p.startAt))
  }

  function Number(n: Option<int>): Option<Value> {
    if n.None? then None else Some(Whole(n.value))
  }

  function TextOf(p: Program, field: Field): Option<string> {
    match field
    case Name => Some(p.halfWidthName)
    case Description => p.halfWidthDescription
    case Extended => p.halfWidthExtended
  }

  function Holds(a: Value, operator: Operator, b: Value): bool {
    match operator
    case Equal => a == b
    case AtLeast => a.Whole? && b.Whole? && a.number >= b.number
    case AtMost => a.Whole? && b.Whole? && a.number <= b.number
  }

  function MatchesText(text: string, matcher: Matcher, pattern: string, caseSensitive: bool, db: Database): bool {
    match matcher
    case Like => db.like(text, pattern, caseSensitive)
    case Regexp => db.regexp(text, pattern, caseSensitive)
  }

  ghost function Evaluate(c: Condition, p: Program, params: map<string, Param>, db: Database): Truth {
    match c
    case Compare(column, operator, name) =>
      var v := ValueOf(p, column);
      if v.None? || name !in params || !params[name].One? then Unknown
      else FromBool(Holds(v.value, operator, params[name].value))
    case In(column, name) =>
      var v := ValueOf(p, column);
      if v.None? || name !in params || !params[name].Many? then Unknown
      else FromBool(v.value in params[name].values)
    case Matches(field, coalesced, matcher, caseSensitive, name) =>
      var text := if TextOf(p, field).None? && coalesced then Some("") else TextOf(p, field);
      if text.None? || name !in params || !params[name].One? || !params[name].value.Text? then Unknown
      else FromBool(MatchesText(text.value, matcher, params[name].value.text, caseSensitive, db))
    case And(all) =>
      if exists k :: 0 <= k < |all| && Evaluate(all[k], p, params, db) == No then No
      else if forall k :: 0 <= k < |all| ==> Evaluate(all[k], p, params, db) == Yes then Yes
      else Unknown
    case Or(any) =>
      if exists k :: 0 <= k < |any| && Evaluate(any[k], p, params, db) == Yes then Yes
      else if forall k :: 0 <= k < |any| ==> Evaluate(any[k], p, params, db) == No then No
      else Unknown
    case Not(negated) =>
      match Evaluate(negated, p, params, db)
      case Yes => No
      case No => Yes
      case Unknown => Unknown
  }

  /** Every name is bound as its use needs, and no list or group is empty. */
  ghost predicate WellFormed(c: Condition, params: map<string, Param>) {
    match c
    case Compare(_, _, name) => name in params && params[name].One?
    case In(_, name) => name in params && params[name].Many? && params[name].values != []
    case Matches(_, _, _, _, name) => name in params && params[name].One? && params[name].value.Text?
    case And(all) => all != [] && forall k :: 0 <= k < |all| ==> WellFormed(all[k], params)
    case Or(any) => any != [] && forall k :: 0 <= k < |any| ==> WellFormed(any[k], params)
    case Not(negated) => WellFormed(negated, params)
  }

  // Parameter names: a base and an index, told apart by the digits at the end.

  predicate IsDigit(c: char) { '0' <= c <= '9' }

  predicate EndsInDigit(name: string) { name != "" && IsDigit(name[|name| - 1]) }

  function Decimal(n: nat): string {
    if n < 10 then ['0' + n as char] else Decimal(n / 10) + ['0' + (n % 10) as char]
  }

  function BaseOf(name: string): string {
    if EndsInDigit(name) then BaseOf(name[..|name| - 1]) else name
  }

  function IndexOf(name: string): nat {
    if EndsInDigit(name) then 10 * IndexOf(name[..|name| - 1]) + (name[|name| - 1] as int - '0' as int) else 0
  }

  function Indexed(base: string, i: nat): (name: string)
    requires base != "" && !EndsInDigit(base)
    ensures BaseOf(name) == base && IndexOf(name) == i
  {
    IndexedReadsBack(base, i);
    base + Decimal(i)
  }

  lemma {:induction false} IndexedReadsBack(base: string, i: nat)
    requires base != "" && !EndsInDigit(base)
    ensures BaseOf(base + Decimal(i)) == base && IndexOf(base + Decimal(i)) == i
  {
    var name := base + Decimal(i);
    if i < 10 {
      assert name[..|name| - 1] == base;
    } else {
      IndexedReadsBack(base, i / 10);
      assert name[..|name| - 1] == base + Decimal(i / 10);
    }
  }
}
