/** A task card's description: a preview of at most 80 characters while
    collapsed, with a button to expand it when the description is longer. */
module TaskCard {

  import opened Wrappers
  import opened Tasks

  /** How many characters the collapsed preview shows. */
  const PreviewLength: nat := 80

  /** What follows a cut-off preview. */
  const Ellipsis: string := "..."

  /** `s.slice(0, n)`: the first `n` characters, or all of `s` when it is
      shorter. */
  function Prefix(s: string, n: nat): (r: string)
    ensures |r| == if |s| <= n then |s| else n
    ensures r == s[..|r|]
  {
    if |s| <= n then s else s[..n]
  }

  /** The collapsed text: the preview, then the ellipsis when the
      description is longer than the preview. */
  function Collapsed(d: string): (r: string)
    ensures |d| <= PreviewLength ==> r == d
    ensures |d| > PreviewLength ==>
              |r| == PreviewLength + |Ellipsis| && r[..PreviewLength] == d[..PreviewLength]
              && r[PreviewLength..] == Ellipsis
  {
    Prefix(d, PreviewLength) + (if |d| > PreviewLength then Ellipsis else "")
  }

  /** The description paragraph: nothing for an empty description, the full
      text when expanded, the collapsed text otherwise. */
  function DescriptionView(d: string, expanded: bool): (v: Option<string>)
    ensures v.None? <==> d == ""
    ensures v.Some? && expanded ==> v.value == d
    ensures v.Some? && !expanded ==> v.value == Collapsed(d)
  {
    if d == "" then None else Some(if expanded then d else Collapsed(d))
  }

  /** The expand/collapse button and its label; it exists only for a
      description longer than the preview. */
  function ToggleButton(d: string, expanded: bool): (b: Option<string>)
    ensures b.Some? <==> |d| > PreviewLength
    ensures b.Some? ==> b.value == if expanded then "Show less" else "Show more"
  {
    if |d| > PreviewLength then Some(if expanded then "Show less" else "Show more") else None
  }

  /** The collapsed text equals the description exactly when the
      description fits the preview, or is 83 characters long and already
      ends in the ellipsis (then the toggle is offered but changes nothing
      visible). */
  lemma CollapsedIsWhole(d: string)
    ensures Collapsed(d) == d <==>
            |d| <= PreviewLength || (|d| == PreviewLength + |Ellipsis| && d[PreviewLength..] == Ellipsis)
  {
    if |d| > PreviewLength && Collapsed(d) == d {
      assert |d| == PreviewLength + |Ellipsis|;
      assert d[PreviewLength..] == Collapsed(d)[PreviewLength..];
    }
    if |d| == PreviewLength + |Ellipsis| && d[PreviewLength..] == Ellipsis {
      assert d == d[..PreviewLength] + d[PreviewLength..];
    }
  }

  /** Whenever the expanded flag changes what the card shows, the card
      offers the toggle that changes the flag. */
  lemma FlagMattersOnlyWithToggle(d: string, e: bool)
    ensures DescriptionView(d, true) != DescriptionView(d, false) ==> ToggleButton(d, e).Some?
  {
    if |d| <= PreviewLength {
      assert Collapsed(d) == d;
    }
  }

  /** The card component's own state: whether its description is expanded. */
  class TaskItem {
    const task: Task
    var showFullDesc: bool

    constructor (task: Task)
      ensures this.task == task && !showFullDesc
    {
      this.task := task;
      showFullDesc := false;
    }

    /** The toggle button: flip the flag. */
    method ToggleDesc()
      modifies this
      ensures showFullDesc == !old(showFullDesc)
    {
      showFullDesc := !showFullDesc;
    }
  }
}
