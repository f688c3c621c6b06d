/**
 * The alias chips of a grid row: the `|`-separated aliases, the first few as chips, a
 * "+N more" chip for the rest, and a popover listing them all.
 */
module AliasChips {
  import opened Wrappers
  import opened Strings
  import opened ProfileMappers

  const DefaultMaxVisible := 3

  /** What the component renders when it renders anything. */
  datatype Chips = Chips(visible: seq<string>, moreLabel: Option<string>, popover: seq<string>)

  /**
   * Where `slice(0, end)` stops on a list of `length` items; a negative end counts back from
   * the end of the list.
   */
  function SliceEnd(length: nat, end: int): (r: nat)
    ensures r <= length
    ensures end >= 0 ==> r == if end < length then end else length
    ensures end < 0 ==> r == if length + end < 0 then 0 else length + end
  {
    if end < 0 then (if length + end < 0 then 0 else length + end)
    else if end < length then end
    else length
  }

  /** `aliasArray.length - visibleAliases.length` */
  function RemainingCount(aliasArray: seq<string>, maxVisible: int): (r: int)
    ensures r >= 0
    ensures maxVisible >= 0 ==> (r > 0 <==> |aliasArray| > maxVisible)
  {
    |aliasArray| - |aliasArray[..SliceEnd(|aliasArray|, maxVisible)]|
  }

  /** The chip text for the hidden aliases. */
  function MoreLabel(remaining: nat): string
  {
    "+" + NatToString(remaining) + " more"
  }

  /** The component; `None` for the `null` it returns on a missing or empty alias string. */
  function Render(aliases: Option<string>, maxVisible: Option<int>): Option<Chips>
  {
    if aliases.None? || aliases.value == "" then None
    else
      var aliasArray := Split(aliases.value, '|');
      var limit := maxVisible.GetOr(DefaultMaxVisible);
      var visible := aliasArray[..SliceEnd(|aliasArray|, limit)];
      var remaining := RemainingCount(aliasArray, limit);
      Some(Chips(visible, if remaining > 0 then Some(MoreLabel(remaining)) else None, aliasArray))
  }

  // ---- properties ----

  /**
   * Nothing is rendered exactly when the aliases are missing or empty. Otherwise the popover
   * lists every alias in order (joining them with `|` gives the string back), no chip holds
   * a `|`, the visible chips are the first ones, and the "+N more" chip is there exactly when
   * some are hidden, `N` being how many.
   */
  lemma RenderShape(aliases: Option<string>, maxVisible: Option<int>)
    ensures Render(aliases, maxVisible).None? <==> aliases.None? || aliases.value == ""
    ensures Render(aliases, maxVisible).Some? ==>
      var c := Render(aliases, maxVisible).value;
      && Join(c.popover, "|") == aliases.value
      && (forall i :: 0 <= i < |c.popover| ==> '|' !in c.popover[i])
      && c.visible <= c.popover
      && (c.moreLabel.Some? <==> |c.visible| < |c.popover|)
      && (c.moreLabel.Some? ==> c.moreLabel.value == MoreLabel(|c.popover| - |c.visible|))
  {
    if aliases.Some? && aliases.value != "" {
      JoinSplit(aliases.value, '|');
      SplitPiecesFree(aliases.value, '|');
    }
  }

  /** By default at most three chips show; with a non-negative limit, at most that many. */
  lemma VisibleCount(aliases: string, maxVisible: Option<int>)
    requires aliases != ""
    requires maxVisible.None? || maxVisible.value >= 0
    ensures var c := Render(Some(aliases), maxVisible).value;
      var limit := if maxVisible.Some? then maxVisible.value else 3;
      |c.visible| == if |c.popover| < limit then |c.popover| else limit
  {
  }

  /**
   * The grid passes a profile's joined aliases with the default limit: when no alias holds a
   * `|` the popover gets the profile's aliases back one for one.
   */
  lemma ProfileAliasesBack(aliases: seq<string>)
    requires JoinedAliases(Some(aliases)) != ""
    requires forall i :: 0 <= i < |aliases| ==> '|' !in aliases[i]
    ensures Render(Some(JoinedAliases(Some(aliases))), None).value.popover == aliases
  {
    SplitJoin(aliases, '|');
  }
}
