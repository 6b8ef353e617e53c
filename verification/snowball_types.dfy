/** The seven snowball tiers (model/SnowballType.java) and the pure tier
    rules of model/Snowball.java: growth on snow and the combination table. */
module SnowballTypes {
  import opened Wrappers

  datatype SnowballType = Small | Mid | Big | MidSmall | BigSmall | BigMid | Complete

  /** The three segments a snowman is stacked from. Not a type of the game:
      it gives the combination table an independent reading, each tier being
      the set of segments it is made of. */
  datatype Part = SmallPart | MidPart | BigPart

  function Parts(t: SnowballType): set<Part>
  {
    match t
    case Small => {SmallPart}
    case Mid => {MidPart}
    case Big => {BigPart}
    case MidSmall => {MidPart, SmallPart}
    case BigSmall => {BigPart, SmallPart}
    case BigMid => {BigPart, MidPart}
    case Complete => {SmallPart, MidPart, BigPart}
  }

  predicate IsSingle(t: SnowballType)
  {
    t == Small || t == Mid || t == Big
  }

  predicate IsTwoPart(t: SnowballType)
  {
    t == MidSmall || t == BigSmall || t == BigMid
  }

  /** Size of a one-segment tier: SMALL 1, MID 2, BIG 3. */
  function Size(t: SnowballType): nat
  {
    match t
    case Small => 1
    case Mid => 2
    case Big => 3
    case _ => 0
  }

  /** increaseSnowballType: a snowball rolled over snow grows one size,
      saturating at BIG; combined tiers are left as they are. */
  function IncreaseSnowballType(t: SnowballType): (r: SnowballType)
    ensures IsSingle(t) ==> IsSingle(r) && Size(r) == if Size(t) < 3 then Size(t) + 1 else 3
    ensures !IsSingle(t) ==> r == t
    ensures r == t <==> !(t == Small || t == Mid)
    ensures IsTwoPart(r) || r == Complete ==> r == t
  {
    match t
    case Small => Mid
    case Mid => Big
    case _ => t
  }

  /** hasAllThreeParts: the two tiers together hold the three segments, each once. */
  function HasAllThreeParts(t1: SnowballType, t2: SnowballType): (b: bool)
    ensures b <==> Parts(t1) !! Parts(t2) && Parts(t1) + Parts(t2) == Parts(Complete)
  {
    (t1 == BigMid && t2 == Small) ||
    (t2 == BigMid && t1 == Small) ||
    (t1 == BigSmall && t2 == Mid) ||
    (t2 == BigSmall && t1 == Mid) ||
    (t1 == MidSmall && t2 == Big) ||
    (t2 == MidSmall && t1 == Big)
  }

  /** calculateCombinedType: two snowballs stack exactly when they share no
      segment, and the result holds the segments of both; `None` stands for
      the source's `null`. */
  function CalculateCombinedType(t1: SnowballType, t2: SnowballType): (r: Option<SnowballType>)
    ensures r.Some? <==> Parts(t1) !! Parts(t2)
    ensures r.Some? ==> Parts(r.value) == Parts(t1) + Parts(t2)
  {
    if (t1 == Small && t2 == Mid) || (t2 == Small && t1 == Mid) then Some(MidSmall)
    else if (t1 == Small && t2 == Big) || (t2 == Small && t1 == Big) then Some(BigSmall)
    else if (t1 == Mid && t2 == Big) || (t2 == Mid && t1 == Big) then Some(BigMid)
    else if HasAllThreeParts(t1, t2) then Some(Complete)
    else None
  }

  /** A tier is determined by its segments. */
  lemma PartsInjective(t1: SnowballType, t2: SnowballType)
    requires Parts(t1) == Parts(t2)
    ensures t1 == t2
  {
    assert SmallPart in Parts(t1) <==> SmallPart in Parts(t2);
    assert MidPart in Parts(t1) <==> MidPart in Parts(t2);
    assert BigPart in Parts(t1) <==> BigPart in Parts(t2);
  }

  /** The combination does not depend on which snowball is the mover. */
  lemma CombinedTypeSymmetric(t1: SnowballType, t2: SnowballType)
    ensures CalculateCombinedType(t1, t2) == CalculateCombinedType(t2, t1)
  {
    var r1, r2 := CalculateCombinedType(t1, t2), CalculateCombinedType(t2, t1);
    if r1.Some? {
      PartsInjective(r1.value, r2.value);
    }
  }

  /** The combination table, row by row; every pair not listed fails. */
  lemma CombinationTable(t1: SnowballType, t2: SnowballType)
    ensures CalculateCombinedType(Small, Mid) == Some(MidSmall)
    ensures CalculateCombinedType(Small, Big) == Some(BigSmall)
    ensures CalculateCombinedType(Mid, Big) == Some(BigMid)
    ensures CalculateCombinedType(BigMid, Small) == Some(Complete)
    ensures CalculateCombinedType(BigSmall, Mid) == Some(Complete)
    ensures CalculateCombinedType(MidSmall, Big) == Some(Complete)
    ensures CalculateCombinedType(t1, t2).Some? <==>
      (IsSingle(t1) && IsSingle(t2) && t1 != t2) || HasAllThreeParts(t1, t2)
  {
  }

  /** A two-part tier arises from exactly one unordered pair of single tiers,
      and COMPLETE only from a two-part tier and the single tier it lacks. */
  lemma CombinationOrigin(t1: SnowballType, t2: SnowballType)
    ensures CalculateCombinedType(t1, t2) == Some(MidSmall) <==> {t1, t2} == {Small, Mid}
    ensures CalculateCombinedType(t1, t2) == Some(BigSmall) <==> {t1, t2} == {Small, Big}
    ensures CalculateCombinedType(t1, t2) == Some(BigMid) <==> {t1, t2} == {Mid, Big}
    ensures CalculateCombinedType(t1, t2) == Some(Complete) ==>
      (IsTwoPart(t1) && IsSingle(t2)) || (IsSingle(t1) && IsTwoPart(t2))
    ensures CalculateCombinedType(t1, t2) != Some(Small)
    ensures CalculateCombinedType(t1, t2) != Some(Mid)
    ensures CalculateCombinedType(t1, t2) != Some(Big)
  {
  }
}
