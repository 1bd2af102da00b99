/**
 * The Slack message blocks a poll is made of (index.js:154-243), with each vote
 * button's JSON value decoded into a record.
 */
module Blocks {
  import opened Wrappers

  /**
   * What a vote button carries: the poll's settings, the users who voted for the
   * option and the option's position among the options.
   */
  datatype ButtonValue = ButtonValue(
    anonymous: bool,
    limited: bool,
    limit: Option<int>,
    voters: seq<string>,
    id: int)

  /** A button accessory: its plain-text label and its value. */
  datatype Button = Button(text: string, value: ButtonValue)

  /** A section (text, maybe with a button), a context row of mrkdwn texts, or a divider. */
  datatype Block =
    | Section(text: string, accessory: Option<Button>)
    | Context(elements: seq<string>)
    | Divider

  const VoteLabel := "Vote"
  const NoVotes := "No votes"
  const AnonymousBadge := ":shushing_face: Anonymous poll"
  const HelpLink := "<https://github.com/kazualex/openpollslack.git|Need help ?>"

  /** The poll message has a badge line exactly when it is anonymous or limited. */
  function BadgeOffset(anonymous: bool, limited: bool): nat {
    if anonymous || limited then 1 else 0
  }

  /** The voters recorded in a block's button, if it has one. */
  predicate HoldsVoter(b: Block, user: string) {
    b.Section? && b.accessory.Some? && user in b.accessory.value.value.voters
  }
}
