/**
 * The noun catalog loaded once at start-up (one row per CSV line with the
 * columns Singular, Plural and Level), the five difficulty levels, the
 * per-level filter and count, and the level-selector labels
 * `"{level} ({count} items)"` together with their parsing.
 */
module Catalog {
  import opened Wrappers
  import opened Text

  datatype Level = EasyPeasy | Easy | Normal | Challenging | Superchallenging

  /** The levels in the order the selector lists them. */
  const Levels: seq<Level> := [EasyPeasy, Easy, Normal, Challenging, Superchallenging]

  /** The selector lists every level. */
  lemma LevelsComplete()
    ensures forall l :: l in Levels
  {
    forall l: Level ensures l in Levels {
      match l
      case EasyPeasy => assert Levels[0] == l;
      case Easy => assert Levels[1] == l;
      case Normal => assert Levels[2] == l;
      case Challenging => assert Levels[3] == l;
      case Superchallenging => assert Levels[4] == l;
    }
  }

  /** One catalog row. */
  datatype Noun = Noun(singular: string, plural: string, level: Level)

  /** The text of a level in the Level column. */
  function LevelName(l: Level): (r: string)
    ensures |r| > 0 && ' ' !in r
  {
    match l
    case EasyPeasy => "easy_peasy"
    case Easy => "easy"
    case Normal => "normal"
    case Challenging => "challenging"
    case Superchallenging => "superchallenging"
  }

  /** The level whose Level-column text is `name`, if any. */
  function LevelNamed(name: string): (r: Option<Level>)
    ensures r.Some? ==> LevelName(r.value) == name
  {
    if name == "easy_peasy" then Some(EasyPeasy)
    else if name == "easy" then Some(Easy)
    else if name == "normal" then Some(Normal)
    else if name == "challenging" then Some(Challenging)
    else if name == "superchallenging" then Some(Superchallenging)
    else None
  }

  /** Every level is found again from its name, so a name belongs to at most one level. */
  lemma LevelNamedComplete(l: Level)
    ensures LevelNamed(LevelName(l)) == Some(l)
  {
  }

  /** A string that names no level is not the Level text of any row. */
  lemma UnknownNameHasNoRows(catalog: seq<Noun>, name: string)
    requires LevelNamed(name) == None
    ensures forall n :: n in catalog ==> LevelName(n.level) != name
  {
  }

  /** `df[df["Level"] == level]`: the rows of level `l`, in catalog order. */
  function LevelRows(catalog: seq<Noun>, l: Level): (r: seq<Noun>)
    ensures forall n :: n in r <==> n in catalog && n.level == l
    ensures forall n :: multiset(r)[n] == if n.level == l then multiset(catalog)[n] else 0
  {
    if catalog == [] then []
    else
      assert catalog == [catalog[0]] + catalog[1..];
      (if catalog[0].level == l then [catalog[0]] else []) + LevelRows(catalog[1..], l)
  }

  /** `df["Level"].value_counts().get(level, 0)`: how many rows have level `l`. */
  function CountAt(catalog: seq<Noun>, l: Level): (r: nat)
    ensures r <= |catalog|
  {
    if catalog == [] then 0
    else (if catalog[0].level == l then 1 else 0) + CountAt(catalog[1..], l)
  }

  /** The count is 0 (`get`'s default) exactly when no row carries the level. */
  lemma {:induction false} CountAtZeroIff(catalog: seq<Noun>, l: Level)
    ensures CountAt(catalog, l) == 0 <==> forall n :: n in catalog ==> n.level != l
  {
    if catalog != [] {
      CountAtZeroIff(catalog[1..], l);
      assert forall n :: n in catalog <==> n == catalog[0] || n in catalog[1..];
    }
  }

  /** The filtered rows are exactly as many as the count shown in the label. */
  lemma {:induction false} LevelRowsCount(catalog: seq<Noun>, l: Level)
    ensures |LevelRows(catalog, l)| == CountAt(catalog, l)
  {
    if catalog != [] {
      LevelRowsCount(catalog[1..], l);
    }
  }

  /** A level has no rows exactly when no catalog row carries it. */
  lemma LevelRowsEmptyIff(catalog: seq<Noun>, l: Level)
    ensures LevelRows(catalog, l) == [] <==> forall n :: n in catalog ==> n.level != l
  {
  }

  /** The selector entry of a level: `f"{level} ({count} items)"`. */
  function Label(l: Level, count: nat): (r: string)
    ensures LevelName(l) + " " <= r
  {
    LevelName(l) + " (" + NatToString(count) + " items)"
  }

  /**
   * `levels_with_counts`: one label per level, in selector order, each of
   * which, split at its first space, names the level it was built for.
   */
  function LevelLabels(catalog: seq<Noun>): (r: seq<string>)
    ensures |r| == |Levels|
    ensures forall i :: 0 <= i < |Levels| ==> r[i] == Label(Levels[i], CountAt(catalog, Levels[i]))
    ensures forall i :: 0 <= i < |Levels| ==> LevelNamed(FirstField(r[i])) == Some(Levels[i])
  {
    LabelsSelectTheirLevel(catalog);
    seq(|Levels|, i requires 0 <= i < |Levels| => Label(Levels[i], CountAt(catalog, Levels[i])))
  }

  /** Splitting a label at its first space gives back the level name, since no level name holds a space. */
  lemma LabelFirstField(l: Level, count: nat)
    ensures FirstField(Label(l, count)) == LevelName(l)
  {
    assert ' ' !in LevelName(l);
    assert Label(l, count) == LevelName(l) + " " + ("(" + NatToString(count) + " items)");
    FirstFieldOfJoin(LevelName(l), "(" + NatToString(count) + " items)");
  }

  /** The label of every level, with that level's count, parses back to the level. */
  lemma LabelsSelectTheirLevel(catalog: seq<Noun>)
    ensures forall i :: 0 <= i < |Levels| ==>
              LevelNamed(FirstField(Label(Levels[i], CountAt(catalog, Levels[i])))) == Some(Levels[i])
  {
    forall i | 0 <= i < |Levels|
      ensures LevelNamed(FirstField(Label(Levels[i], CountAt(catalog, Levels[i])))) == Some(Levels[i])
    {
      LabelFirstField(Levels[i], CountAt(catalog, Levels[i]));
      LevelNamedComplete(Levels[i]);
    }
  }
}
