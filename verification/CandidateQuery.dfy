/** The candidate query: a syntax and three-valued meaning for the part of SQL it
    uses, the builder that numbers its placeholders, and what the result selects. */
module CandidateQuery {
  import opened Common
  import opened Calendar
  import opened Schema

  // ----- SQL: syntax -----

  datatype Value = Null | Num(n: int) | Degrees(r: real) | Text(s: string) | Flag(b: bool) | Day(d: Date)

  datatype Column =
    | PId | PUserId | PIsActive | PBirthday | PGender | PLatitude | PLongitude | PCity
    | UIsVerified
    | EActionUserId | ETargetUserId
    | SActorUserId | STargetUserId

  datatype Term = Field(column: Column) | Placeholder(number: nat) | AgeOf(birthday: Column) | TrueLiteral

  datatype Table = UserExclusions | Swipes

  datatype Condition =
    | Equal(left: Term, right: Term)
    | NotEqual(left: Term, right: Term)
    | Greater(left: Term, right: Term)
    | Between(term: Term, low: Term, high: Term)
    | IsNotNull(term: Term)
    | And(first: Condition, second: Condition)
    | Or(first: Condition, second: Condition)
    | NotExists(table: Table, where: Condition)

  /** The condition mentions placeholder $n. */
  predicate Uses(c: Condition, n: nat) {
    match c
    case Equal(l, r) => l == Placeholder(n) || r == Placeholder(n)
    case NotEqual(l, r) => l == Placeholder(n) || r == Placeholder(n)
    case Greater(l, r) => l == Placeholder(n) || r == Placeholder(n)
    case Between(t, l, h) => t == Placeholder(n) || l == Placeholder(n) || h == Placeholder(n)
    case IsNotNull(t) => t == Placeholder(n)
    case And(f, s) => Uses(f, n) || Uses(s, n)
    case Or(f, s) => Uses(f, n) || Uses(s, n)
    case NotExists(_, w) => Uses(w, n)
  }

  predicate TermBound(t: Term, args: seq<Value>) {
    t.Placeholder? ==> 1 <= t.number <= |args|
  }

  /** Every placeholder of the condition has an argument. */
  predicate Bound(c: Condition, args: seq<Value>) {
    match c
    case Equal(l, r) => TermBound(l, args) && TermBound(r, args)
    case NotEqual(l, r) => TermBound(l, args) && TermBound(r, args)
    case Greater(l, r) => TermBound(l, args) && TermBound(r, args)
    case Between(t, l, h) => TermBound(t, args) && TermBound(l, args) && TermBound(h, args)
    case IsNotNull(t) => TermBound(t, args)
    case And(f, s) => Bound(f, args) && Bound(s, args)
    case Or(f, s) => Bound(f, args) && Bound(s, args)
    case NotExists(_, w) => Bound(w, args)
  }

  // ----- SQL: meaning -----

  datatype Truth = Yes | No | Unknown

  type Row = map<Column, Value>

  function ToTruth(b: bool): Truth {
    if b then Yes else No
  }

  function TruthAnd(a: Truth, b: Truth): Truth {
    if a == No || b == No then No else if a == Yes && b == Yes then Yes else Unknown
  }

  function TruthOr(a: Truth, b: Truth): Truth {
    if a == Yes || b == Yes then Yes else if a == No && b == No then No else Unknown
  }

  /** No, Unknown, Yes in this order. */
  function Rank(t: Truth): int {
    match t case No => 0 case Unknown => 1 case Yes => 2
  }

  /** AND is the lesser of the two, OR the greater, NOT turns the order round. */
  lemma KleeneLogic(a: Truth, b: Truth)
    ensures Rank(TruthAnd(a, b)) == if Rank(a) < Rank(b) then Rank(a) else Rank(b)
    ensures Rank(TruthOr(a, b)) == if Rank(a) > Rank(b) then Rank(a) else Rank(b)
    ensures Rank(Negate(a)) == 2 - Rank(a)
  {
  }

  /** A comparison is unknown exactly when a side is NULL, among values of one kind. */
  lemma NullIsUnknown(v: Value, x: int, y: int)
    ensures Same(Null, v) == Same(v, Null) == AtMost(Null, v) == AtMost(v, Null) == Unknown
    ensures Same(Num(x), Num(y)) == (if x == y then Yes else No) && AtMost(Num(x), Num(y)) == (if x <= y then Yes else No)
  {
  }

  function EvalTerm(t: Term, row: Row, args: seq<Value>, today: Date): Value
    requires TermBound(t, args)
  {
    match t
    case Field(c) => if c in row then row[c] else Null
    case Placeholder(n) => args[n - 1]
    case AgeOf(c) => if c in row && row[c].Day? then Num(AgeYears(today, row[c].d)) else Null
    case TrueLiteral => Flag(true)
  }

  /** Comparison with NULL is unknown; the query never compares different kinds. */
  function AtMost(a: Value, b: Value): Truth {
    match (a, b)
    case (Num(x), Num(y)) => ToTruth(x <= y)
    case (Degrees(x), Degrees(y)) => ToTruth(x <= y)
    case _ => Unknown
  }

  function Same(a: Value, b: Value): Truth {
    if a.Null? || b.Null? then Unknown else ToTruth(a == b)
  }

  function Negate(t: Truth): Truth {
    match t case Yes => No case No => Yes case Unknown => Unknown
  }

  function RowsOf(db: Tables, table: Table): set<Pair> {
    match table
    case UserExclusions => db.exclusions.Keys
    case Swipes => db.swipes
  }

  function PairRow(table: Table, pair: Pair): Row {
    match table
    case UserExclusions => map[EActionUserId := Num(pair.0), ETargetUserId := Num(pair.1)]
    case Swipes => map[SActorUserId := Num(pair.0), STargetUserId := Num(pair.1)]
  }

  function Eval(c: Condition, row: Row, args: seq<Value>, at: Snapshot): Truth
    requires Bound(c, args)
    decreases c
  {
    match c
    case Equal(l, r) => Same(EvalTerm(l, row, args, at.today), EvalTerm(r, row, args, at.today))
    case NotEqual(l, r) => Negate(Same(EvalTerm(l, row, args, at.today), EvalTerm(r, row, args, at.today)))
    case Greater(l, r) => Negate(AtMost(EvalTerm(l, row, args, at.today), EvalTerm(r, row, args, at.today)))
    case Between(t, l, h) =>
      var value := EvalTerm(t, row, args, at.today);
      TruthAnd(AtMost(EvalTerm(l, row, args, at.today), value), AtMost(value, EvalTerm(h, row, args, at.today)))
    case IsNotNull(t) => ToTruth(!EvalTerm(t, row, args, at.today).Null?)
    case And(f, s) => TruthAnd(Eval(f, row, args, at), Eval(s, row, args, at))
    case Or(f, s) => TruthOr(Eval(f, row, args, at), Eval(s, row, args, at))
    case NotExists(table, w) =>
      ToTruth(!exists pair :: pair in RowsOf(at.tables, table) && Eval(w, row + PairRow(table, pair), args, at) == Yes)
  }

  /** A WHERE clause keeps a row when every conjunct is true, not merely not false. */
  predicate Keeps(conditions: seq<Condition>, row: Row, args: seq<Value>, at: Snapshot)
    requires forall c :: c in conditions ==> Bound(c, args)
  {
    forall c :: c in conditions ==> Eval(c, row, args, at) == Yes
  }

  datatype Query = Query(conditions: seq<Condition>, args: seq<Value>, limitNumber: nat)

  ghost predicate Referenced(conditions: seq<Condition>, n: nat) {
    exists c :: c in conditions && Uses(c, n)
  }

  /** Every placeholder has an argument and every argument a placeholder. */
  ghost predicate Numbered(conditions: seq<Condition>, args: seq<Value>) {
    && (forall c :: c in conditions ==> Bound(c, args))
    && (forall n: nat :: 1 <= n <= |args| ==> Referenced(conditions, n))
  }

  /** Postgres accepts the statement, and its last argument is the LIMIT. */
  ghost predicate Complete(q: Query) {
    && 1 <= q.limitNumber == |q.args|
    && q.args[q.limitNumber - 1].Num? && q.args[q.limitNumber - 1].n >= 0
    && Numbered(q.conditions, q.args[..|q.args| - 1])
  }

  // ----- The query of the discovery feed -----

  datatype Filters = Filters(
    city: Option<string>, minAge: int, maxAge: int, gender: Option<int>, isVerified: bool, maxDistanceKm: int)

  datatype Bounds = Bounds(minLatitude: real, maxLatitude: real, minLongitude: real, maxLongitude: real)

  datatype Input = Input(viewer: int, filters: Filters, bounds: Bounds, afterProfileId: int, limit: nat)

  function OptionalText(s: Option<string>): Value {
    if s.Some? then Text(s.value) else Null
  }

  function OptionalDegrees(r: Option<real>): Value {
    if r.Some? then Degrees(r.value) else Null
  }

  /** A row of profiles p JOIN users u. */
  function CandidateRow(p: Profile, verified: bool): Row {
    map[PId := Num(p.id), PUserId := Num(p.userId), PIsActive := Flag(p.isActive), PBirthday := Day(p.birthday),
        PGender := Num(p.gender), PLatitude := OptionalDegrees(p.latitude), PLongitude := OptionalDegrees(p.longitude),
        PCity := OptionalText(p.city), UIsVerified := Flag(verified)]
  }

  /** What the viewer asked for, stated on the profile itself. */
  predicate Qualifies(input: Input, p: Profile, at: Snapshot) {
    && p.userId in at.tables.users
    && p.isActive
    && p.userId != input.viewer
    && p.latitude.Some? && input.bounds.minLatitude <= p.latitude.value <= input.bounds.maxLatitude
    && p.longitude.Some? && input.bounds.minLongitude <= p.longitude.value <= input.bounds.maxLongitude
    && input.filters.minAge <= AgeYears(at.today, p.birthday) <= input.filters.maxAge
    && p.id > input.afterProfileId
    && !ExcludedEitherWay(at.tables, input.viewer, p.userId)
    && (input.viewer, p.userId) !in at.tables.swipes
    && (input.filters.city.Some? ==> p.city == input.filters.city)
    && (input.filters.gender.Some? ==> p.gender == input.filters.gender.value)
    && (input.filters.isVerified ==> at.tables.users[p.userId])
  }

  predicate Selects(q: Query, p: Profile, at: Snapshot)
    requires forall c :: c in q.conditions ==> Bound(c, q.args)
  {
    p.userId in at.tables.users
    && Keeps(q.conditions, CandidateRow(p, at.tables.users[p.userId]), q.args, at)
  }

  const ACTIVE := Equal(Field(PIsActive), TrueLiteral)
  const NOT_VIEWER := NotEqual(Field(PUserId), Placeholder(1))
  const LATITUDE_KNOWN := IsNotNull(Field(PLatitude))
  const LONGITUDE_KNOWN := IsNotNull(Field(PLongitude))
  const LATITUDE_INSIDE := Between(Field(PLatitude), Placeholder(2), Placeholder(3))
  const LONGITUDE_INSIDE := Between(Field(PLongitude), Placeholder(4), Placeholder(5))
  const AGE_INSIDE := Between(AgeOf(PBirthday), Placeholder(6), Placeholder(7))
  const AFTER_CURSOR := Greater(Field(PId), Placeholder(8))
  const VIEWER_EXCLUDED := And(Equal(Field(EActionUserId), Placeholder(1)), Equal(Field(ETargetUserId), Field(PUserId)))
  const EXCLUDED_VIEWER := And(Equal(Field(EActionUserId), Field(PUserId)), Equal(Field(ETargetUserId), Placeholder(1)))
  const EITHER_WAY := Or(VIEWER_EXCLUDED, EXCLUDED_VIEWER)
  const NOT_EXCLUDED := NotExists(UserExclusions, EITHER_WAY)
  const VIEWER_LIKED := And(Equal(Field(SActorUserId), Placeholder(1)), Equal(Field(STargetUserId), Field(PUserId)))
  const NOT_LIKED := NotExists(Swipes, VIEWER_LIKED)
  const VERIFIED := Equal(Field(UIsVerified), TrueLiteral)

  /** The two slices the builder grows, and its appendArgument closure. */
  class Builder {
    var conditions: seq<Condition>
    var args: seq<Value>

    constructor (input: Input)
      ensures conditions == [ACTIVE, NOT_VIEWER, LATITUDE_KNOWN, LONGITUDE_KNOWN, LATITUDE_INSIDE,
                             LONGITUDE_INSIDE, AGE_INSIDE, AFTER_CURSOR, NOT_EXCLUDED, NOT_LIKED]
      ensures args == BaseArgs(input)
    {
      conditions := [ACTIVE, NOT_VIEWER, LATITUDE_KNOWN, LONGITUDE_KNOWN, LATITUDE_INSIDE,
                     LONGITUDE_INSIDE, AGE_INSIDE, AFTER_CURSOR, NOT_EXCLUDED, NOT_LIKED];
      args := BaseArgs(input);
    }

    method AppendArgument(condition: nat -> Condition, value: Value)
      modifies this
      ensures conditions == old(conditions) + [condition(old(|args|) + 1)]
      ensures args == old(args) + [value]
    {
      conditions := conditions + [condition(|args| + 1)];
      args := args + [value];
    }
  }

  function BaseArgs(input: Input): seq<Value> {
    [Num(input.viewer), Degrees(input.bounds.minLatitude), Degrees(input.bounds.maxLatitude),
     Degrees(input.bounds.minLongitude), Degrees(input.bounds.maxLongitude),
     Num(input.filters.minAge), Num(input.filters.maxAge), Num(input.afterProfileId)]
  }

  const CITY_IS := (n: nat) => Equal(Field(PCity), Placeholder(n))
  const GENDER_IS := (n: nat) => Equal(Field(PGender), Placeholder(n))

  // ----- Meaning of the pieces -----

  lemma {:induction c} BoundMore(c: Condition, args: seq<Value>, more: seq<Value>)
    requires Bound(c, args)
    ensures Bound(c, args + more)
  {
  }

  /** Arguments appended later do not change a condition that is already bound. */
  lemma {:induction false} MoreArguments(c: Condition, row: Row, args: seq<Value>, more: seq<Value>, at: Snapshot)
    requires Bound(c, args)
    ensures Bound(c, args + more)
    ensures Eval(c, row, args + more, at) == Eval(c, row, args, at)
    decreases c
  {
    BoundMore(c, args, more);
    match c
    case And(f, s) =>
      MoreArguments(f, row, args, more, at);
      MoreArguments(s, row, args, more, at);
    case Or(f, s) =>
      MoreArguments(f, row, args, more, at);
      MoreArguments(s, row, args, more, at);
    case NotExists(table, w) =>
      forall pair | pair in RowsOf(at.tables, table) {
        MoreArguments(w, row + PairRow(table, pair), args, more, at);
      }
    case _ =>
  }

  /** One more conjunct narrows the selection by exactly its own meaning. */
  lemma AppendConjunct(conditions: seq<Condition>, c: Condition, row: Row, args: seq<Value>, more: seq<Value>, at: Snapshot)
    requires forall d :: d in conditions ==> Bound(d, args)
    requires Bound(c, args + more)
    ensures forall d :: d in conditions + [c] ==> Bound(d, args + more)
    ensures Keeps(conditions + [c], row, args + more, at) <==>
            Keeps(conditions, row, args, at) && Eval(c, row, args + more, at) == Yes
  {
    forall d | d in conditions
      ensures Bound(d, args + more)
      ensures Eval(d, row, args + more, at) == Eval(d, row, args, at)
    {
      MoreArguments(d, row, args, more, at);
    }
  }

  lemma NumberedAppend(conditions: seq<Condition>, c: Condition, args: seq<Value>, more: seq<Value>)
    requires Numbered(conditions, args)
    requires Bound(c, args + more)
    requires forall n: nat :: |args| < n <= |args + more| ==> Uses(c, n)
    ensures Numbered(conditions + [c], args + more)
  {
    var all := conditions + [c];
    assert c in all;
    forall d | d in conditions {
      BoundMore(d, args, more);
    }
    forall n: nat | 1 <= n <= |args + more| ensures Referenced(all, n) {
      if n <= |args| {
        assert Referenced(conditions, n);
        var d :| d in conditions && Uses(d, n);
        assert d in all;
      }
    }
  }

  lemma BaseBound(input: Input)
    ensures Bound(ACTIVE, BaseArgs(input)) && Bound(NOT_VIEWER, BaseArgs(input))
    ensures Bound(LATITUDE_KNOWN, BaseArgs(input)) && Bound(LONGITUDE_KNOWN, BaseArgs(input))
    ensures Bound(LATITUDE_INSIDE, BaseArgs(input)) && Bound(LONGITUDE_INSIDE, BaseArgs(input))
    ensures Bound(AGE_INSIDE, BaseArgs(input)) && Bound(AFTER_CURSOR, BaseArgs(input))
    ensures Bound(VIEWER_EXCLUDED, BaseArgs(input)) && Bound(EXCLUDED_VIEWER, BaseArgs(input))
    ensures Bound(EITHER_WAY, BaseArgs(input)) && Bound(VIEWER_LIKED, BaseArgs(input))
    ensures Bound(NOT_EXCLUDED, BaseArgs(input)) && Bound(NOT_LIKED, BaseArgs(input))
  {
  }

  /** NOT EXISTS is true exactly when no row of the table is one of the hits. */
  lemma NotExistsMeaning(table: Table, where: Condition, row: Row, args: seq<Value>, at: Snapshot, hits: set<Pair>)
    requires Bound(where, args)
    requires forall pair :: Eval(where, row + PairRow(table, pair), args, at) == Yes <==> pair in hits
    ensures Eval(NotExists(table, where), row, args, at) == Yes <==> RowsOf(at.tables, table) !! hits
  {
  }

  lemma ExclusionRowsMeaning(input: Input, p: Profile, verified: bool, at: Snapshot)
    ensures Bound(EITHER_WAY, BaseArgs(input))
    ensures forall pair: Pair ::
              Eval(EITHER_WAY, CandidateRow(p, verified) + PairRow(UserExclusions, pair), BaseArgs(input), at) == Yes
              <==> pair in {(input.viewer, p.userId), (p.userId, input.viewer)}
  {
  }

  lemma ExclusionMeaning(input: Input, p: Profile, verified: bool, at: Snapshot)
    ensures Bound(NOT_EXCLUDED, BaseArgs(input))
    ensures Eval(NOT_EXCLUDED, CandidateRow(p, verified), BaseArgs(input), at) == Yes <==>
            !ExcludedEitherWay(at.tables, input.viewer, p.userId)
  {
    ExclusionRowsMeaning(input, p, verified, at);
    NotExistsMeaning(UserExclusions, EITHER_WAY, CandidateRow(p, verified), BaseArgs(input), at,
                     {(input.viewer, p.userId), (p.userId, input.viewer)});
  }

  lemma LikedMeaning(input: Input, p: Profile, verified: bool, at: Snapshot)
    ensures Bound(NOT_LIKED, BaseArgs(input))
    ensures Eval(NOT_LIKED, CandidateRow(p, verified), BaseArgs(input), at) == Yes <==>
            (input.viewer, p.userId) !in at.tables.swipes
  {
    BaseBound(input);
    var row, args := CandidateRow(p, verified), BaseArgs(input);
    forall pair: Pair
      ensures Eval(VIEWER_LIKED, row + PairRow(Swipes, pair), args, at) == Yes <==> pair in {(input.viewer, p.userId)}
    {
      assert (row + PairRow(Swipes, pair))[PUserId] == Num(p.userId);
      assert Eval(VIEWER_LIKED, row + PairRow(Swipes, pair), args, at)
             == ToTruth(pair.0 == input.viewer && pair.1 == p.userId);
    }
    NotExistsMeaning(Swipes, VIEWER_LIKED, row, args, at, {(input.viewer, p.userId)});
  }

  /** Qualifies with the optional filters left out. */
  ghost predicate QualifiesBase(input: Input, p: Profile, at: Snapshot) {
    Qualifies(input.(filters := input.filters.(city := None, gender := None, isVerified := false)), p, at)
  }

  const BASE: seq<Condition> :=
    [ACTIVE, NOT_VIEWER, LATITUDE_KNOWN, LONGITUDE_KNOWN, LATITUDE_INSIDE,
     LONGITUDE_INSIDE, AGE_INSIDE, AFTER_CURSOR, NOT_EXCLUDED, NOT_LIKED]

  lemma ReferencedBy(conditions: seq<Condition>, i: nat, n: nat)
    requires i < |conditions| && Uses(conditions[i], n)
    ensures Referenced(conditions, n)
  {
    assert conditions[i] in conditions;
  }

  /** Which condition holds placeholder n. */
  function HolderOf(n: nat): nat {
    if n == 1 then 1 else if n == 8 then 7 else if n <= 3 then 4 else if n <= 5 then 5 else 6
  }

  lemma BaseReferenced(n: nat)
    requires 1 <= n <= 8
    ensures Referenced(BASE, n)
  {
    assert Uses(BASE[HolderOf(n)], n);
    ReferencedBy(BASE, HolderOf(n), n);
  }

  lemma BaseBoundAt(input: Input, i: nat)
    requires i < |BASE|
    ensures Bound(BASE[i], BaseArgs(input))
  {
    BaseBound(input);
  }

  lemma AllBound(conditions: seq<Condition>, args: seq<Value>)
    requires forall i :: 0 <= i < |conditions| ==> Bound(conditions[i], args)
    ensures forall c :: c in conditions ==> Bound(c, args)
  {
  }

  lemma BaseNumbered(input: Input)
    ensures Numbered(BASE, BaseArgs(input))
  {
    var args := BaseArgs(input);
    forall i | 0 <= i < |BASE|
      ensures Bound(BASE[i], args)
    {
      BaseBoundAt(input, i);
    }
    AllBound(BASE, args);
    forall n: nat | 1 <= n <= |args|
      ensures Referenced(BASE, n)
    {
      BaseReferenced(n);
    }
  }

  lemma CoordinateMeaning(input: Input, p: Profile, verified: bool, at: Snapshot)
    ensures var row, args := CandidateRow(p, verified), BaseArgs(input);
            Bound(LATITUDE_INSIDE, args) && Bound(LONGITUDE_INSIDE, args)
            && (Eval(LATITUDE_INSIDE, row, args, at) == Yes <==>
                p.latitude.Some? && input.bounds.minLatitude <= p.latitude.value <= input.bounds.maxLatitude)
            && (Eval(LONGITUDE_INSIDE, row, args, at) == Yes <==>
                p.longitude.Some? && input.bounds.minLongitude <= p.longitude.value <= input.bounds.maxLongitude)
  {
    BaseBound(input);
  }

  lemma NumberMeaning(input: Input, p: Profile, verified: bool, at: Snapshot)
    ensures var row, args := CandidateRow(p, verified), BaseArgs(input);
            Bound(NOT_VIEWER, args) && Bound(AGE_INSIDE, args)
            && Bound(AFTER_CURSOR, args)
            && (Eval(NOT_VIEWER, row, args, at) == Yes <==> p.userId != input.viewer)
            && (Eval(AGE_INSIDE, row, args, at) == Yes <==>
                input.filters.minAge <= AgeYears(at.today, p.birthday) <= input.filters.maxAge)
            && (Eval(AFTER_CURSOR, row, args, at) == Yes <==> p.id > input.afterProfileId)
  {
    BaseBound(input);
  }

  lemma BaseMeaning(input: Input, p: Profile, at: Snapshot)
    requires p.userId in at.tables.users
    ensures Numbered(BASE, BaseArgs(input))
    ensures Keeps(BASE, CandidateRow(p, at.tables.users[p.userId]), BaseArgs(input), at) <==> QualifiesBase(input, p, at)
  {
    var verified := at.tables.users[p.userId];
    BaseNumbered(input);
    BaseBound(input);
    CoordinateMeaning(input, p, verified, at);
    NumberMeaning(input, p, verified, at);
    ExclusionMeaning(input, p, verified, at);
    LikedMeaning(input, p, verified, at);
    KeepsBase(CandidateRow(p, verified), BaseArgs(input), at);
    FrontMeaning(CandidateRow(p, verified), BaseArgs(input), at);
    BackMeaning(CandidateRow(p, verified), BaseArgs(input), at);
    NullTests(p, verified, BaseArgs(input), at);
  }

  lemma NullTests(p: Profile, verified: bool, args: seq<Value>, at: Snapshot)
    ensures Eval(ACTIVE, CandidateRow(p, verified), args, at) == Yes <==> p.isActive
    ensures Eval(LATITUDE_KNOWN, CandidateRow(p, verified), args, at) == Yes <==> p.latitude.Some?
    ensures Eval(LONGITUDE_KNOWN, CandidateRow(p, verified), args, at) == Yes <==> p.longitude.Some?
  {
  }

  const FRONT := [ACTIVE, NOT_VIEWER, LATITUDE_KNOWN, LONGITUDE_KNOWN, LATITUDE_INSIDE]
  const BACK := [LONGITUDE_INSIDE, AGE_INSIDE, AFTER_CURSOR, NOT_EXCLUDED, NOT_LIKED]

  lemma FrontMeaning(row: Row, args: seq<Value>, at: Snapshot)
    requires forall c :: c in FRONT ==> Bound(c, args)
    ensures forall i :: 0 <= i < 5 ==> FRONT[i] in FRONT
    ensures Keeps(FRONT, row, args, at) <==>
            && Eval(FRONT[0], row, args, at) == Yes && Eval(FRONT[1], row, args, at) == Yes
            && Eval(FRONT[2], row, args, at) == Yes && Eval(FRONT[3], row, args, at) == Yes
            && Eval(FRONT[4], row, args, at) == Yes
  {
  }

  lemma BackMeaning(row: Row, args: seq<Value>, at: Snapshot)
    requires forall c :: c in BACK ==> Bound(c, args)
    ensures forall i :: 0 <= i < 5 ==> BACK[i] in BACK
    ensures Keeps(BACK, row, args, at) <==>
            && Eval(BACK[0], row, args, at) == Yes && Eval(BACK[1], row, args, at) == Yes
            && Eval(BACK[2], row, args, at) == Yes && Eval(BACK[3], row, args, at) == Yes
            && Eval(BACK[4], row, args, at) == Yes
  {
  }

  lemma KeepsBase(row: Row, args: seq<Value>, at: Snapshot)
    requires forall c :: c in BASE ==> Bound(c, args)
    ensures BASE == FRONT + BACK
    ensures Keeps(BASE, row, args, at) <==> Keeps(FRONT, row, args, at) && Keeps(BACK, row, args, at)
  {
  }

  /** The conjuncts collected so far select exactly the profiles qualifying for narrowed. */
  ghost predicate SelectsSoFar(conditions: seq<Condition>, args: seq<Value>, narrowed: Input) {
    && Numbered(conditions, args)
    && forall p: Profile, at: Snapshot ::
         Selects(Query(conditions, args, 0), p, at) <==> Qualifies(narrowed, p, at)
  }

  lemma CityConjunct(conditions: seq<Condition>, args: seq<Value>, narrowed: Input, city: string)
    requires SelectsSoFar(conditions, args, narrowed) && narrowed.filters.city.None?
    ensures SelectsSoFar(conditions + [CITY_IS(|args| + 1)], args + [Text(city)],
                         narrowed.(filters := narrowed.filters.(city := Some(city))))
  {
    var c := CITY_IS(|args| + 1);
    NumberedAppend(conditions, c, args, [Text(city)]);
    forall p: Profile, at: Snapshot | p.userId in at.tables.users
      ensures Selects(Query(conditions + [c], args + [Text(city)], 0), p, at) <==>
              Selects(Query(conditions, args, 0), p, at) && p.city == Some(city)
    {
      AppendConjunct(conditions, c, CandidateRow(p, at.tables.users[p.userId]), args, [Text(city)], at);
    }
  }

  lemma GenderConjunct(conditions: seq<Condition>, args: seq<Value>, narrowed: Input, gender: int)
    requires SelectsSoFar(conditions, args, narrowed) && narrowed.filters.gender.None?
    ensures SelectsSoFar(conditions + [GENDER_IS(|args| + 1)], args + [Num(gender)],
                         narrowed.(filters := narrowed.filters.(gender := Some(gender))))
  {
    var c := GENDER_IS(|args| + 1);
    NumberedAppend(conditions, c, args, [Num(gender)]);
    forall p: Profile, at: Snapshot | p.userId in at.tables.users
      ensures Selects(Query(conditions + [c], args + [Num(gender)], 0), p, at) <==>
              Selects(Query(conditions, args, 0), p, at) && p.gender == gender
    {
      AppendConjunct(conditions, c, CandidateRow(p, at.tables.users[p.userId]), args, [Num(gender)], at);
    }
  }

  lemma VerifiedConjunct(conditions: seq<Condition>, args: seq<Value>, narrowed: Input)
    requires SelectsSoFar(conditions, args, narrowed) && !narrowed.filters.isVerified
    ensures SelectsSoFar(conditions + [VERIFIED], args, narrowed.(filters := narrowed.filters.(isVerified := true)))
  {
    NumberedAppend(conditions, VERIFIED, args, []);
    assert args + [] == args;
    forall p: Profile, at: Snapshot | p.userId in at.tables.users
      ensures Selects(Query(conditions + [VERIFIED], args, 0), p, at) <==>
              Selects(Query(conditions, args, 0), p, at) && at.tables.users[p.userId]
    {
      AppendConjunct(conditions, VERIFIED, CandidateRow(p, at.tables.users[p.userId]), args, [], at);
    }
  }

  lemma LimitArgument(conditions: seq<Condition>, args: seq<Value>, input: Input)
    requires SelectsSoFar(conditions, args, input)
    ensures forall c :: c in conditions ==> Bound(c, args + [Num(input.limit)])
    ensures forall p: Profile, at: Snapshot ::
              Selects(Query(conditions, args + [Num(input.limit)], |args| + 1), p, at) <==> Qualifies(input, p, at)
  {
    forall c | c in conditions {
      BoundMore(c, args, [Num(input.limit)]);
    }
    forall p: Profile, at: Snapshot | p.userId in at.tables.users
      ensures Selects(Query(conditions, args + [Num(input.limit)], |args| + 1), p, at) <==>
              Selects(Query(conditions, args, 0), p, at)
    {
      forall c | c in conditions {
        MoreArguments(c, CandidateRow(p, at.tables.users[p.userId]), args, [Num(input.limit)], at);
      }
    }
  }

  /** The WHERE clause: the fixed conditions and those of the filters that are set. */
  method BuildConditions(input: Input) returns (builder: Builder)
    ensures fresh(builder) && SelectsSoFar(builder.conditions, builder.args, input)
  {
    builder := new Builder(input);
    ghost var narrowed := input.(filters := input.filters.(city := None, gender := None, isVerified := false));
    BaseSelects(input);
    if input.filters.city.Some? {
      CityConjunct(builder.conditions, builder.args, narrowed, input.filters.city.value);
      narrowed := narrowed.(filters := narrowed.filters.(city := input.filters.city));
      builder.AppendArgument(CITY_IS, Text(input.filters.city.value));
    }
    if input.filters.gender.Some? {
      GenderConjunct(builder.conditions, builder.args, narrowed, input.filters.gender.value);
      narrowed := narrowed.(filters := narrowed.filters.(gender := input.filters.gender));
      builder.AppendArgument(GENDER_IS, Num(input.filters.gender.value));
    }
    if input.filters.isVerified {
      VerifiedConjunct(builder.conditions, builder.args, narrowed);
      narrowed := narrowed.(filters := narrowed.filters.(isVerified := true));
      builder.conditions := builder.conditions + [VERIFIED];
    }
    assert narrowed == input;
  }

  /** buildCandidateQuery: whatever filters are set, the statement is complete and
      selects exactly the qualifying profiles. */
  method BuildCandidateQuery(input: Input) returns (q: Query)
    ensures Complete(q) && q.args[q.limitNumber - 1] == Num(input.limit)
    ensures forall c :: c in q.conditions ==> Bound(c, q.args)
    ensures forall p: Profile, at: Snapshot :: Selects(q, p, at) <==> Qualifies(input, p, at)
  {
    var builder := BuildConditions(input);
    LimitArgument(builder.conditions, builder.args, input);
    ghost var args := builder.args;
    builder.args := builder.args + [Num(input.limit)];
    q := Query(builder.conditions, builder.args, |builder.args|);
    assert q.args[..|q.args| - 1] == args;
  }

  lemma BaseSelects(input: Input)
    ensures SelectsSoFar(BASE, BaseArgs(input),
                         input.(filters := input.filters.(city := None, gender := None, isVerified := false)))
  {
    BaseNumbered(input);
    forall p: Profile, at: Snapshot
      ensures Selects(Query(BASE, BaseArgs(input), 0), p, at) <==> QualifiesBase(input, p, at)
    {
      if p.userId in at.tables.users {
        BaseMeaning(input, p, at);
      }
    }
  }
}
