/**
 * The `interactionCreate` event: the buttons of the help menu. A button whose custom id
 * starts with `help_` is acknowledged and routed on the id's second `_`-separated
 * segment: `back` shows the category overview, one of the four public categories shows
 * that category's listing, and anything else gets no further response.
 */
module Interaction {
  import opened JsText
  import opened Registry
  import Help

  datatype Interaction = Interaction(isButton: bool, customId: string)

  datatype Response =
    | Ignored
    | Acknowledged
    | ShowAll
    | ShowCategory(category: string)

  /** How a failure is reported to the user: a follow-up once the interaction is acknowledged. */
  datatype ErrorNotice = FollowUp | Reply

  const ButtonPrefix: string := "help_"

  /** `customId.split('_')[1]`; a `help_` id always has a second segment. */
  function Segment(customId: string): (s: string)
    requires StartsWith(customId, ButtonPrefix)
    ensures '_' !in s
  {
    var parts := SplitOn(customId, '_');
    SplitHasSecond(customId);
    parts[1]
  }

  lemma SplitHasSecond(customId: string)
    requires StartsWith(customId, ButtonPrefix)
    ensures |SplitOn(customId, '_')| >= 2
    ensures SplitOn(customId, '_') == ["help"] + SplitOn(customId[|ButtonPrefix|..], '_')
  {
    assert customId == "help" + ['_'] + customId[|ButtonPrefix|..];
    SplitOnAfter("help", '_', customId[|ButtonPrefix|..]);
  }

  /** `interactionCreate.execute` when nothing throws. */
  function Route(i: Interaction): (r: Response)
    ensures !i.isButton ==> r == Ignored
    ensures r == Ignored <==> !i.isButton || !StartsWith(i.customId, ButtonPrefix)
    ensures r == ShowAll <==> i.isButton && StartsWith(i.customId, ButtonPrefix) && Segment(i.customId) == "back"
    ensures r.ShowCategory? <==>
      i.isButton && StartsWith(i.customId, ButtonPrefix) && Segment(i.customId) in Help.PublicCategories
    ensures r.ShowCategory? ==> r.category == Segment(i.customId)
  {
    if !i.isButton || !StartsWith(i.customId, ButtonPrefix) then Ignored
    else
      var category := Segment(i.customId);
      if category == "back" then ShowAll
      else if category in Help.PublicCategories then ShowCategory(category)
      else Acknowledged
  }

  /** `interaction.deferred || interaction.replied ? followUp : reply`. */
  function ErrorNoticeOf(deferred: bool, replied: bool): (n: ErrorNotice)
    ensures n == FollowUp <==> deferred || replied
  {
    if deferred || replied then FollowUp else Reply
  }

  /** A failure while showing a listing comes after the acknowledgement, so it is a follow-up. */
  lemma FailureAfterAcknowledgement(replied: bool)
    ensures ErrorNoticeOf(true, replied) == FollowUp
  {
  }

  /** A button id made of the prefix and one segment is routed on that segment. */
  lemma {:induction false} SegmentOfButton(segment: string)
    requires '_' !in segment
    ensures Segment(ButtonPrefix + segment) == segment
  {
    var id := ButtonPrefix + segment;
    assert id[|ButtonPrefix|..] == segment;
    SplitHasSecond(id);
    SplitOnAbsent(segment, '_');
  }

  /**
   * The buttons that `help` puts under one command's details, pressed: a public
   * category's button shows that category, a command without a category leads back to
   * the overview, and any other category (`moderation`, `admin`) is only acknowledged.
   */
  lemma BackButtonRoute(c: Command)
    requires '_' !in c.category && c.category != "back"
    ensures var r := Route(Interaction(true, Help.BackButtonId(c)));
      && (c.category == "" ==> r == ShowAll)
      && (c.category in Help.PublicCategories ==> r == ShowCategory(c.category))
      && (c.category != "" && c.category !in Help.PublicCategories ==> r == Acknowledged)
  {
    SegmentOfButton(if c.category != "" then c.category else "back");
  }

  /** The four buttons of the category overview each open their category. */
  lemma OverviewButtonsRoute(k: nat)
    requires k < |Help.OverviewButtons|
    ensures Route(Interaction(true, Help.OverviewButtons[k])) == ShowCategory(Help.PublicCategories[k])
  {
    var category := Help.PublicCategories[k];
    assert '_' !in category;
    assert Help.OverviewButtons[k] == ButtonPrefix + category;
    SegmentOfButton(category);
  }
}
