/**
 * The vote button handler (index.js:262-340). A click carries its button's value; the
 * handler toggles the user in that value's voters, checks the user's vote limit over the
 * whole message, re-renders the option's caption and writes the caption and the new
 * button value back into the message's blocks, in place.
 */
module VoteAction {
  import opened Wrappers
  import opened JsText
  import opened Blocks
  import opened PollCommand

  /** `voters.filter(voter_id => voter_id != user)`: every entry of the user goes, the rest stays in order. */
  function Without(voters: seq<string>, user: string): (r: seq<string>)
    ensures forall w :: w in r <==> w in voters && w != user
    ensures user !in voters ==> r == voters
    ensures NoDup(voters) ==> NoDup(r)
  {
    if |voters| == 0 then []
    else if voters[0] == user then Without(voters[1..], user)
    else
      var rest := Without(voters[1..], user);
      assert NoDup(voters) ==> voters[0] !in voters[1..];
      [voters[0]] + rest
  }

  /** The toggle (index.js:288-294): a voter is removed, anyone else is appended. */
  function Toggle(voters: seq<string>, user: string): (r: seq<string>)
    ensures user in r <==> user !in voters
    ensures forall w :: w != user ==> (w in r <==> w in voters)
    ensures NoDup(voters) ==> NoDup(r)
  {
    if user in voters then Without(voters, user) else voters + [user]
  }

  /** Toggling twice from a list without the user gives the list back. */
  lemma ToggleTwice(voters: seq<string>, user: string)
    requires user !in voters
    ensures Toggle(Toggle(voters, user), user) == voters
  {
    assert Toggle(voters, user) == voters + [user];
    assert forall w :: w in Without(voters + [user], user) <==> w in voters;
    WithoutAppended(voters, user);
  }

  /** Removing the user that was just appended restores the list. */
  lemma {:induction false} WithoutAppended(voters: seq<string>, user: string)
    requires user !in voters
    ensures Without(voters + [user], user) == voters
  {
    if |voters| == 0 {
      assert Without([user], user) == Without([], user);
    } else {
      assert (voters + [user])[1..] == voters[1..] + [user];
      WithoutAppended(voters[1..], user);
    }
  }

  /** The index of the clicked button's block (index.js:277-282); the caption follows it. */
  function ButtonIndex(v: ButtonValue): int {
    2 + v.id * 2 + BadgeOffset(v.anonymous, v.limited)
  }

  /** The number of blocks whose button lists the user (index.js:297-305). */
  function VoteCount(blocks: seq<Block>, user: string): nat {
    if |blocks| == 0 then 0
    else VoteCount(blocks[..|blocks| - 1], user) + (if HoldsVoter(blocks[|blocks| - 1], user) then 1 else 0)
  }

  /** Replacing one block changes the count by what the old and the new block contribute. */
  lemma {:induction false} VoteCountUpdate(blocks: seq<Block>, j: nat, b: Block, user: string)
    requires j < |blocks|
    ensures VoteCount(blocks[j := b], user)
         == VoteCount(blocks, user) - (if HoldsVoter(blocks[j], user) then 1 else 0)
                                    + (if HoldsVoter(b, user) then 1 else 0)
  {
    var n := |blocks|;
    var nb := blocks[j := b];
    if j == n - 1 {
      assert nb[..n - 1] == blocks[..n - 1];
    } else {
      assert nb[..n - 1] == blocks[..n - 1][j := b];
      VoteCountUpdate(blocks[..n - 1], j, b, user);
    }
  }

  /** The vote-count loop over the message's blocks. */
  method CountVotes(blocks: array<Block>, user: string) returns (n: nat)
    ensures n == VoteCount(blocks[..], user)
  {
    n := 0;
    for k := 0 to blocks.Length
      invariant n == VoteCount(blocks[..k], user)
    {
      assert blocks[..k + 1][..k] == blocks[..k];
      if blocks[k].Section? && blocks[k].accessory.Some? {
        if user in blocks[k].accessory.value.value.voters {
          n := n + 1;
        }
      }
    }
    assert blocks[..blocks.Length] == blocks[..];
  }

  /** One mention. */
  function Mention(voter: string): string {
    "<@" + voter + "> "
  }

  /** The mentions of the voters, in order. */
  function Mentions(voters: seq<string>): string {
    if |voters| == 0 then "" else Mentions(voters[..|voters| - 1]) + Mention(voters[|voters| - 1])
  }

  /** `vote` for one voter, `votes` otherwise. */
  function VoteWord(n: nat): string {
    if n == 1 then "vote" else "votes"
  }

  /**
   * An option's caption: `No votes` without voters; otherwise the voters' mentions
   * (none when the poll is anonymous), the number of voters and the word `vote(s)`.
   */
  function Caption(voters: seq<string>, anonymous: bool): string {
    if |voters| == 0 then NoVotes
    else (if anonymous then "" else Mentions(voters)) + NatToString(|voters|) + " " + VoteWord(|voters|)
  }

  /** The caption is `No votes` exactly when nobody voted. */
  lemma CaptionNoVotesIff(voters: seq<string>, anonymous: bool)
    ensures Caption(voters, anonymous) == NoVotes <==> |voters| == 0
  {
    if |voters| > 0 {
      var c := Caption(voters, anonymous);
      var digits := NatToString(|voters|);
      if anonymous {
        assert c[0] == digits[0];
      } else {
        MentionsStart(voters);
        assert c[0] == Mentions(voters)[0];
      }
      assert NoVotes[0] == 'N';
    }
  }

  /** Mentions of at least one voter start with `<`. */
  lemma {:induction false} MentionsStart(voters: seq<string>)
    requires |voters| > 0
    ensures |Mentions(voters)| > 0 && Mentions(voters)[0] == '<'
  {
    if |voters| > 1 {
      MentionsStart(voters[..|voters| - 1]);
    }
  }

  /** An anonymous caption depends on the number of voters alone. */
  lemma AnonymousCaptionHidesVoters(voters: seq<string>, others: seq<string>)
    requires |voters| == |others|
    ensures Caption(voters, true) == Caption(others, true)
  {
  }

  /** The caption loop (index.js:317-333). */
  method RenderCaption(voters: seq<string>, anonymous: bool) returns (text: string)
    ensures text == Caption(voters, anonymous)
  {
    if |voters| == 0 {
      text := NoVotes;
    } else {
      text := "";
      for k := 0 to |voters|
        invariant text == if anonymous then "" else Mentions(voters[..k])
      {
        assert voters[..k + 1][..k] == voters[..k];
        if !anonymous {
          text := text + "<@" + voters[k] + "> ";
        }
      }
      assert voters[..|voters|] == voters;
      text := text + NatToString(|voters|) + " ";
      if |voters| == 1 {
        text := text + "vote";
      } else {
        text := text + "votes";
      }
    }
  }

  /** What one action does to the blocks. */
  datatype Step =
    | Updated(blocks: seq<Block>)  // accepted: the caption and the button value rewritten
    | LimitReached                 // rejected by the vote limit: the handler returns
    | Broken                       // a block is missing or of the wrong kind: the handler throws

  /** The vote limit is checked when the poll is limited and its limit is truthy (not 0). */
  predicate Enforced(v: ButtonValue) {
    v.limited && v.limit.Some? && v.limit.value != 0
  }

  /** Block b is a section with a button and block b + 1 a context row with a first element. */
  predicate InPlace(blocks: seq<Block>, b: int) {
    && 0 <= b && b + 1 < |blocks|
    && HasButton(blocks[b])
    && blocks[b + 1].Context? && |blocks[b + 1].elements| > 0
  }

  /**
   * The write-back of an accepted action (index.js:317-338): the caption's first element
   * is rendered from the new voters and the button's value takes them; every other block,
   * the section's text and the button's label stay.
   */
  function Rewrite(blocks: seq<Block>, b: int, v: ButtonValue, voters: seq<string>): (r: seq<Block>)
    requires InPlace(blocks, b)
    ensures |r| == |blocks| && InPlace(r, b)
    ensures forall j :: 0 <= j < |blocks| && j != b && j != b + 1 ==> r[j] == blocks[j]
    ensures r[b] == Section(blocks[b].text, Some(Button(blocks[b].accessory.value.text, v.(voters := voters))))
    ensures r[b + 1] == Context([Caption(voters, v.anonymous)] + blocks[b + 1].elements[1..])
  {
    var caption := Context(blocks[b + 1].elements[0 := Caption(voters, v.anonymous)]);
    var button := blocks[b].accessory.value.(value := v.(voters := voters));
    blocks[b + 1 := caption][b := blocks[b].(accessory := Some(button))]
  }

  /**
   * One action on the blocks. The count of the user's votes is taken over all blocks
   * before the change, less one when the click removes a vote: the votes on the other
   * options. The action is rejected when that count reaches the limit.
   */
  function ApplyAction(blocks: seq<Block>, user: string, v: ButtonValue): Step {
    var b := ButtonIndex(v);
    var count := VoteCount(blocks, user) - (if user in v.voters then 1 else 0);
    if Enforced(v) && count >= v.limit.value then LimitReached
    else if !InPlace(blocks, b) then Broken
    else Updated(Rewrite(blocks, b, v, Toggle(v.voters, user)))
  }

  /** How an action ends. */
  datatype Outcome = Accepted | Rejected | Crashed

  /**
   * The body of the action loop, in place on the message's blocks: an accepted action
   * rewrites exactly the clicked button's value and the first element of its caption;
   * a rejected or broken one changes nothing.
   */
  method HandleAction(blocks: array<Block>, user: string, v: ButtonValue) returns (outcome: Outcome)
    modifies blocks
    ensures match ApplyAction(old(blocks[..]), user, v)
      case Updated(nb) => outcome == Accepted && blocks[..] == nb
      case LimitReached => outcome == Rejected && blocks[..] == old(blocks[..])
      case Broken => outcome == Crashed && blocks[..] == old(blocks[..])
  {
    var buttonId := ButtonIndex(v);
    var contextId := buttonId + 1;
    var voters := v.voters;
    var removeVote := false;
    if user in voters {
      removeVote := true;
      voters := Without(voters, user);
    } else {
      voters := voters + [user];
    }
    assert voters == Toggle(v.voters, user);
    if v.limited && v.limit.Some? && v.limit.value != 0 {
      var voteCount: int := CountVotes(blocks, user);
      if removeVote {
        voteCount := voteCount - 1;
      }
      if voteCount >= v.limit.value {
        return Rejected;
      }
    }
    var newVoters := RenderCaption(voters, v.anonymous);
    if !(0 <= buttonId && contextId < blocks.Length) {
      return Crashed;
    }
    if !InPlace(blocks[..], buttonId) {
      return Crashed;
    }
    WriteBack(blocks, buttonId, v, voters, newVoters);
    outcome := Accepted;
  }

  /** The write-back of an accepted action (index.js:335-338), in place. */
  method WriteBack(blocks: array<Block>, b: int, v: ButtonValue, voters: seq<string>, caption: string)
    requires InPlace(blocks[..], b) && caption == Caption(voters, v.anonymous)
    modifies blocks
    ensures blocks[..] == Rewrite(old(blocks[..]), b, v, voters)
  {
    var block := blocks[b + 1];
    var blockBtn := blocks[b];
    blocks[b + 1] := Context(block.elements[0 := caption]);
    var button := blockBtn.accessory.value.(value := v.(voters := voters));
    blocks[b] := blockBtn.(accessory := Some(button));
  }

  /** The result of the whole action loop: whether the message is posted, and the blocks. */
  datatype Run = Run(posted: bool, blocks: seq<Block>)

  /** The actions of one payload, in order; the first rejection or failure ends the handler. */
  function RunActions(blocks: seq<Block>, user: string, values: seq<ButtonValue>): Run
    decreases |values|
  {
    if |values| == 0 then Run(true, blocks)
    else
      match ApplyAction(blocks, user, values[0])
      case Updated(nb) => RunActions(nb, user, values[1..])
      case _ => Run(false, blocks)
  }

  /**
   * The POST /actions handler: every action of the payload in turn; the updated message
   * is posted only when all of them were accepted.
   */
  method HandleActions(blocks: array<Block>, user: string, values: seq<ButtonValue>)
    returns (posted: Option<seq<Block>>)
    modifies blocks
    ensures var r := RunActions(old(blocks[..]), user, values);
      blocks[..] == r.blocks && posted == (if r.posted then Some(r.blocks) else None)
  {
    var k := 0;
    while k < |values|
      invariant 0 <= k <= |values|
      invariant RunActions(old(blocks[..]), user, values) == RunActions(blocks[..], user, values[k..])
    {
      var outcome := HandleAction(blocks, user, values[k]);
      if outcome != Accepted {
        return None;
      }
      assert values[k..][1..] == values[k + 1..];
      k := k + 1;
    }
    posted := Some(blocks[..]);
  }

  // ---------------------------------------------------------------------------
  // Poll messages under clicks

  /** Where option i's button sits in a message whose badge offset is off. */
  function Slot(i: int, off: nat): int {
    2 + 2 * i + off
  }

  /** The builder and the handler agree: option i's button is where its value points. */
  lemma ButtonIndexOfInitial(question: string, options: seq<string>, s: Settings, i: nat)
    requires i < |options|
    ensures var b := PollBlocks(question, options, s);
      var k := ButtonIndex(InitialValue(s, i));
      && k == Slot(i, BadgeOffset(s.anonymous, s.limited))
      && 0 <= k && k + 1 < |b|
      && b[k] == Section(options[i], Some(Button(VoteLabel, InitialValue(s, i))))
      && b[k + 1] == Context([NoVotes])
  {
    PollBlocksLayout(question, options, s);
  }

  /** A block that has a vote button. */
  predicate HasButton(b: Block) {
    b.Section? && b.accessory.Some?
  }

  /** The value of option i's button, when that block has a button. */
  function ValueAt(blocks: seq<Block>, i: int, off: nat): Option<ButtonValue> {
    var b := Slot(i, off);
    if 0 <= b < |blocks| && HasButton(blocks[b]) then Some(blocks[b].accessory.value.value) else None
  }

  /**
   * Option i is in order: its button carries the poll's settings, the index i and
   * distinct voters, and its caption renders those voters.
   */
  predicate OptionShaped(blocks: seq<Block>, s: Settings, i: int) {
    var b := Slot(i, BadgeOffset(s.anonymous, s.limited));
    && 0 <= b && b + 1 < |blocks|
    && HasButton(blocks[b])
    && var v := blocks[b].accessory.value.value;
    && v == ButtonValue(s.anonymous, s.limited, s.limit, v.voters, i)
    && NoDup(v.voters)
    && blocks[b + 1].Context? && |blocks[b + 1].elements| > 0
    && blocks[b + 1].elements[0] == Caption(v.voters, s.anonymous)
  }

  /** Block j is one of the n option buttons' places. */
  predicate IsButtonSlot(j: int, n: nat, off: nat) {
    2 + off <= j < 2 + off + 2 * n && (j - off) % 2 == 0
  }

  /**
   * A poll message of n options: its length, every option in order, and no button
   * anywhere but in the options' places.
   */
  predicate PollShape(blocks: seq<Block>, n: nat, s: Settings) {
    var off := BadgeOffset(s.anonymous, s.limited);
    && |blocks| == 2 * n + 4 + off
    && (forall i :: 0 <= i < n ==> OptionShaped(blocks, s, i))
    && (forall j {:trigger HasButton(blocks[j])} :: 0 <= j < |blocks| && !IsButtonSlot(j, n, off) ==> !HasButton(blocks[j]))
  }

  /** A freshly built poll is in shape. */
  lemma InitialShape(question: string, options: seq<string>, s: Settings)
    ensures PollShape(PollBlocks(question, options, s), |options|, s)
  {
    PollBlocksLayout(question, options, s);
    var b := PollBlocks(question, options, s);
    var off := BadgeOffset(s.anonymous, s.limited);
    forall j | 0 <= j < 2 + off
      ensures !HasButton(b[j])
    {
    }
    forall i | 0 <= i < |options|
      ensures HasButton(b[Slot(i, off)]) && b[Slot(i, off)].accessory.value.value == InitialValue(s, i)
      ensures b[Slot(i, off) + 1] == Context([NoVotes])
    {
    }
    LayoutShape(b, |options|, s);
  }

  /**
   * A message of the poll's length whose head and tail hold no button, and whose
   * option places hold the initial buttons, each followed by an empty caption, is in shape.
   */
  lemma LayoutShape(b: seq<Block>, n: nat, s: Settings)
    requires var off := BadgeOffset(s.anonymous, s.limited);
      && |b| == 2 * n + 4 + off
      && (forall j :: 0 <= j < 2 + off ==> !HasButton(b[j]))
      && !HasButton(b[|b| - 2]) && !HasButton(b[|b| - 1])
      && forall i :: 0 <= i < n ==>
           && HasButton(b[Slot(i, off)]) && b[Slot(i, off)].accessory.value.value == InitialValue(s, i)
           && b[Slot(i, off) + 1] == Context([NoVotes])
    ensures PollShape(b, n, s)
  {
    var off := BadgeOffset(s.anonymous, s.limited);
    forall i | 0 <= i < n
      ensures OptionShaped(b, s, i)
    {
    }
    forall j | 0 <= j < |b| && !IsButtonSlot(j, n, off)
      ensures !HasButton(b[j])
    {
      if 2 + off <= j < 2 + off + 2 * n {
        var k := j - off - 2;
        assert k % 2 == 1;
        var i := k / 2;
        assert 0 <= i < n && j == Slot(i, off) + 1;
      }
    }
  }

  /** In a poll in shape, a click finds a button exactly at the options' indexes. */
  lemma ValueAtShape(blocks: seq<Block>, n: nat, s: Settings, i: int)
    requires PollShape(blocks, n, s)
    ensures ValueAt(blocks, i, BadgeOffset(s.anonymous, s.limited)).Some? <==> 0 <= i < n
    ensures 0 <= i < n ==>
      var v := OptionValue(blocks, n, s, i);
      && v == ButtonValue(s.anonymous, s.limited, s.limit, v.voters, i)
      && ButtonIndex(v) == Slot(i, BadgeOffset(s.anonymous, s.limited))
  {
    var off := BadgeOffset(s.anonymous, s.limited);
    if 0 <= i < n {
      assert OptionShaped(blocks, s, i);
    } else {
      var b := Slot(i, off);
      if 0 <= b < |blocks| {
        assert !IsButtonSlot(b, n, off);
      }
    }
  }

  /** The value of option i's button in a poll in shape. */
  function OptionValue(blocks: seq<Block>, n: nat, s: Settings, i: int): (v: ButtonValue)
    requires PollShape(blocks, n, s) && 0 <= i < n
    ensures v == ButtonValue(s.anonymous, s.limited, s.limit, v.voters, i) && NoDup(v.voters)
    ensures ButtonIndex(v) == Slot(i, BadgeOffset(s.anonymous, s.limited))
    ensures ValueAt(blocks, i, BadgeOffset(s.anonymous, s.limited)) == Some(v)
  {
    assert OptionShaped(blocks, s, i);
    blocks[Slot(i, BadgeOffset(s.anonymous, s.limited))].accessory.value.value
  }

  /**
   * An action whose button and caption blocks are in place is never broken: it is
   * rejected exactly when the user's votes on the other options reach an enforced limit,
   * and otherwise rewrites those two blocks with the toggled voters.
   */
  lemma ActionFrame(blocks: seq<Block>, user: string, v: ButtonValue)
    requires InPlace(blocks, ButtonIndex(v))
    ensures ApplyAction(blocks, user, v)
      == if Enforced(v) && VoteCount(blocks, user) - (if user in v.voters then 1 else 0) >= v.limit.value
         then LimitReached
         else Updated(Rewrite(blocks, ButtonIndex(v), v, Toggle(v.voters, user)))
  {
  }

  /** Rewriting the same two blocks twice is rewriting them once, with the second value. */
  lemma RewriteTwice(blocks: seq<Block>, b: int, v: ButtonValue, voters: seq<string>, w: ButtonValue, others: seq<string>)
    requires InPlace(blocks, b)
    ensures Rewrite(Rewrite(blocks, b, v, voters), b, w, others) == Rewrite(blocks, b, w, others)
  {
    var once := Rewrite(blocks, b, v, voters);
    assert Rewrite(once, b, w, others)[b + 1] == Rewrite(blocks, b, w, others)[b + 1] by {
      assert once[b + 1].elements[1..] == blocks[b + 1].elements[1..];
    }
  }

  /** Rewriting two blocks with what they already show changes nothing. */
  lemma RewriteSame(blocks: seq<Block>, b: int, v: ButtonValue, voters: seq<string>)
    requires InPlace(blocks, b)
    requires blocks[b].accessory.value.value == v.(voters := voters)
    requires blocks[b + 1].elements[0] == Caption(voters, v.anonymous)
    ensures Rewrite(blocks, b, v, voters) == blocks
  {
    var r := Rewrite(blocks, b, v, voters);
    assert r[b + 1].elements == blocks[b + 1].elements;
    assert r[b] == blocks[b];
    assert r[b + 1] == blocks[b + 1];
  }

  /** A rewrite changes the user's count by what the old and the new button contribute. */
  lemma RewriteCount(blocks: seq<Block>, b: int, v: ButtonValue, voters: seq<string>, w: string)
    requires InPlace(blocks, b)
    ensures VoteCount(Rewrite(blocks, b, v, voters), w)
         == VoteCount(blocks, w) - (if HoldsVoter(blocks[b], w) then 1 else 0) + (if w in voters then 1 else 0)
  {
    var caption := Context(blocks[b + 1].elements[0 := Caption(voters, v.anonymous)]);
    var mid := blocks[b + 1 := caption];
    var button := blocks[b].(accessory := Some(blocks[b].accessory.value.(value := v.(voters := voters))));
    assert Rewrite(blocks, b, v, voters) == mid[b := button];
    VoteCountUpdate(blocks, b + 1, caption, w);
    VoteCountUpdate(mid, b, button, w);
    assert mid[b] == blocks[b];
  }

  /**
   * A click on option i of a poll in shape finds its two blocks in place, so it is never
   * broken: it is rejected exactly when the limit is reached, and otherwise rewrites
   * only that option's button value (toggling the user) and its caption.
   */
  lemma ClickFrame(blocks: seq<Block>, n: nat, s: Settings, i: int, user: string)
    requires PollShape(blocks, n, s) && 0 <= i < n
    ensures var v := OptionValue(blocks, n, s, i);
      var b := Slot(i, BadgeOffset(s.anonymous, s.limited));
      && InPlace(blocks, b)
      && blocks[b].accessory.value.value == v
      && blocks[b + 1].elements[0] == Caption(v.voters, s.anonymous)
      && ApplyAction(blocks, user, v)
         == if Enforced(v) && VoteCount(blocks, user) - (if user in v.voters then 1 else 0) >= v.limit.value
            then LimitReached
            else Updated(Rewrite(blocks, b, v, Toggle(v.voters, user)))
  {
    var v := OptionValue(blocks, n, s, i);
    assert OptionShaped(blocks, s, i);
    ActionFrame(blocks, user, v);
  }

  /** Rewriting option i's two blocks with distinct voters keeps the poll in shape. */
  lemma RewriteKeepsShape(blocks: seq<Block>, n: nat, s: Settings, i: int, voters: seq<string>)
    requires PollShape(blocks, n, s) && 0 <= i < n
    requires NoDup(voters)
    ensures InPlace(blocks, Slot(i, BadgeOffset(s.anonymous, s.limited)))
    ensures PollShape(Rewrite(blocks, Slot(i, BadgeOffset(s.anonymous, s.limited)), OptionValue(blocks, n, s, i), voters), n, s)
  {
    var off := BadgeOffset(s.anonymous, s.limited);
    var b := Slot(i, off);
    assert OptionShaped(blocks, s, i);
    var nb := Rewrite(blocks, b, OptionValue(blocks, n, s, i), voters);
    forall k | 0 <= k < n
      ensures OptionShaped(nb, s, k)
    {
      if k != i {
        assert OptionShaped(blocks, s, k);
        assert nb[Slot(k, off)] == blocks[Slot(k, off)];
        assert nb[Slot(k, off) + 1] == blocks[Slot(k, off) + 1];
      }
    }
    forall j | 0 <= j < |nb| && !IsButtonSlot(j, n, off)
      ensures !HasButton(nb[j])
    {
      if j != b + 1 {
        assert j != b;
        assert nb[j] == blocks[j];
        assert !HasButton(blocks[j]);
      }
    }
  }

  /** An accepted click keeps the poll in shape. */
  lemma ClickKeepsShape(blocks: seq<Block>, n: nat, s: Settings, i: int, user: string)
    requires PollShape(blocks, n, s) && 0 <= i < n
    requires ApplyAction(blocks, user, OptionValue(blocks, n, s, i)).Updated?
    ensures PollShape(ApplyAction(blocks, user, OptionValue(blocks, n, s, i)).blocks, n, s)
  {
    var v := OptionValue(blocks, n, s, i);
    ClickFrame(blocks, n, s, i, user);
    RewriteKeepsShape(blocks, n, s, i, Toggle(v.voters, user));
  }

  /** The user's count after an accepted click: one more for a new vote, one less for a withdrawn one. */
  lemma ClickCount(blocks: seq<Block>, n: nat, s: Settings, i: int, user: string, w: string)
    requires PollShape(blocks, n, s) && 0 <= i < n
    requires ApplyAction(blocks, user, OptionValue(blocks, n, s, i)).Updated?
    ensures var v := OptionValue(blocks, n, s, i);
      var nb := ApplyAction(blocks, user, v).blocks;
      VoteCount(nb, w) == VoteCount(blocks, w)
        - (if w in v.voters then 1 else 0) + (if w in Toggle(v.voters, user) then 1 else 0)
  {
    var v := OptionValue(blocks, n, s, i);
    ClickFrame(blocks, n, s, i, user);
    RewriteCount(blocks, Slot(i, BadgeOffset(s.anonymous, s.limited)), v, Toggle(v.voters, user), w);
  }

  /**
   * The vote limit holds for every user after an accepted click on a limited poll,
   * when it held before.
   */
  lemma ClickKeepsLimit(blocks: seq<Block>, n: nat, s: Settings, i: int, user: string, w: string)
    requires PollShape(blocks, n, s) && 0 <= i < n
    requires s.limited && s.limit.Some? && s.limit.value != 0
    requires VoteCount(blocks, w) <= s.limit.value
    ensures var step := ApplyAction(blocks, user, OptionValue(blocks, n, s, i));
      step.Updated? ==> VoteCount(step.blocks, w) <= s.limit.value
  {
    var v := OptionValue(blocks, n, s, i);
    ValueAtShape(blocks, n, s, i);
    if ApplyAction(blocks, user, v).Updated? {
      ClickCount(blocks, n, s, i, user, w);
    }
  }

  /** Withdrawing a vote is always accepted while the limit holds for the user. */
  lemma WithdrawAccepted(blocks: seq<Block>, n: nat, s: Settings, i: int, user: string)
    requires PollShape(blocks, n, s) && 0 <= i < n
    requires user in OptionValue(blocks, n, s, i).voters
    requires s.limited && s.limit.Some? ==> VoteCount(blocks, user) <= s.limit.value
    ensures ApplyAction(blocks, user, OptionValue(blocks, n, s, i)).Updated?
  {
    ClickFrame(blocks, n, s, i, user);
  }

  /**
   * The message `once` is `blocks` with the user, who had not voted for option i,
   * appended to that option's voters and its caption re-rendered; and the user's votes
   * on the other options stay under the limit.
   */
  predicate VotedOnce(blocks: seq<Block>, once: seq<Block>, s: Settings, i: int, user: string, v: ButtonValue) {
    var b := Slot(i, BadgeOffset(s.anonymous, s.limited));
    && InPlace(blocks, b)
    && blocks[b].accessory.value.value == v
    && blocks[b + 1].elements[0] == Caption(v.voters, v.anonymous)
    && user !in v.voters
    && once == Rewrite(blocks, b, v, v.voters + [user])
    && (Enforced(v) ==> VoteCount(once, user) - 1 < v.limit.value)
  }

  /**
   * The second click of a vote: on a message that differs from the original only by
   * the user appended to option i's voters, withdrawing is accepted and gives the
   * original back.
   */
  lemma WithdrawRestores(blocks: seq<Block>, once: seq<Block>, n: nat, s: Settings, i: int, user: string, v: ButtonValue)
    requires PollShape(once, n, s) && 0 <= i < n
    requires VotedOnce(blocks, once, s, i, user, v)
    ensures ApplyAction(once, user, OptionValue(once, n, s, i)) == Updated(blocks)
  {
    var b := Slot(i, BadgeOffset(s.anonymous, s.limited));
    var w := OptionValue(once, n, s, i);
    ClickFrame(once, n, s, i, user);
    assert w == v.(voters := v.voters + [user]);
    ToggleTwice(v.voters, user);
    RewriteTwice(blocks, b, v, v.voters + [user], w, v.voters);
    assert w.(voters := v.voters) == v;
    RewriteSame(blocks, b, w, v.voters);
  }

  /** An accepted new vote leaves a message in shape that differs from the original as a withdrawal expects. */
  lemma VoteGivesVotedOnce(blocks: seq<Block>, n: nat, s: Settings, i: int, user: string)
    requires PollShape(blocks, n, s) && 0 <= i < n
    requires user !in OptionValue(blocks, n, s, i).voters
    requires ApplyAction(blocks, user, OptionValue(blocks, n, s, i)).Updated?
    ensures var v := OptionValue(blocks, n, s, i);
      var once := ApplyAction(blocks, user, v).blocks;
      && PollShape(once, n, s)
      && VotedOnce(blocks, once, s, i, user, v)
  {
    var v := OptionValue(blocks, n, s, i);
    ClickFrame(blocks, n, s, i, user);
    ClickKeepsShape(blocks, n, s, i, user);
    ClickCount(blocks, n, s, i, user, user);
  }

  /** Voting for an option and then clicking it again gives the message back unchanged. */
  lemma VoteTwiceRestores(blocks: seq<Block>, n: nat, s: Settings, i: int, user: string)
    requires PollShape(blocks, n, s) && 0 <= i < n
    requires user !in OptionValue(blocks, n, s, i).voters
    requires ApplyAction(blocks, user, OptionValue(blocks, n, s, i)).Updated?
    ensures var once := ApplyAction(blocks, user, OptionValue(blocks, n, s, i)).blocks;
      && PollShape(once, n, s)
      && ApplyAction(once, user, OptionValue(once, n, s, i)) == Updated(blocks)
  {
    var v := OptionValue(blocks, n, s, i);
    VoteGivesVotedOnce(blocks, n, s, i, user);
    WithdrawRestores(blocks, ApplyAction(blocks, user, v).blocks, n, s, i, user, v);
  }

  /** A click: a user pressing option i's button as the message shows it. */
  datatype Click = Click(user: string, option: int)

  /**
   * The message after one click: the action carries the value the clicked button shows;
   * a click without a button, a rejected one or a broken one leaves the message as it was.
   */
  function AfterClick(blocks: seq<Block>, s: Settings, c: Click): seq<Block> {
    match ValueAt(blocks, c.option, BadgeOffset(s.anonymous, s.limited))
    case None => blocks
    case Some(v) =>
      match ApplyAction(blocks, c.user, v)
      case Updated(nb) => nb
      case _ => blocks
  }

  /** The message after a history of clicks, in order. */
  function Replay(blocks: seq<Block>, s: Settings, clicks: seq<Click>): seq<Block>
    decreases |clicks|
  {
    if |clicks| == 0 then blocks else Replay(AfterClick(blocks, s, clicks[0]), s, clicks[1..])
  }

  /** A click keeps the poll in shape and, on a limited poll, keeps every user within the limit. */
  lemma AfterClickInvariant(blocks: seq<Block>, n: nat, s: Settings, c: Click, w: string)
    requires PollShape(blocks, n, s)
    ensures PollShape(AfterClick(blocks, s, c), n, s)
    ensures s.limited && s.limit.Some? && s.limit.value != 0 && VoteCount(blocks, w) <= s.limit.value ==>
      VoteCount(AfterClick(blocks, s, c), w) <= s.limit.value
  {
    ValueAtShape(blocks, n, s, c.option);
    if 0 <= c.option < n {
      var v := OptionValue(blocks, n, s, c.option);
      if ApplyAction(blocks, c.user, v).Updated? {
        ClickKeepsShape(blocks, n, s, c.option, c.user);
        if s.limited && s.limit.Some? && s.limit.value != 0 && VoteCount(blocks, w) <= s.limit.value {
          ClickKeepsLimit(blocks, n, s, c.option, c.user, w);
        }
      }
    }
  }

  /** Any history of clicks keeps the poll in shape and every user within a nonzero limit. */
  lemma {:induction false} ReplayInvariant(blocks: seq<Block>, n: nat, s: Settings, clicks: seq<Click>, w: string)
    requires PollShape(blocks, n, s)
    ensures PollShape(Replay(blocks, s, clicks), n, s)
    ensures s.limited && s.limit.Some? && s.limit.value != 0 && VoteCount(blocks, w) <= s.limit.value ==>
      VoteCount(Replay(blocks, s, clicks), w) <= s.limit.value
    decreases |clicks|
  {
    if |clicks| > 0 {
      AfterClickInvariant(blocks, n, s, clicks[0], w);
      ReplayInvariant(AfterClick(blocks, s, clicks[0]), n, s, clicks[1..], w);
    }
  }

  /** A fresh poll has no votes. */
  lemma {:induction false} FreshPollNoVotes(question: string, options: seq<string>, s: Settings, w: string)
    ensures VoteCount(PollBlocks(question, options, s), w) == 0
  {
    InitialShape(question, options, s);
    var b := PollBlocks(question, options, s);
    forall j | 0 <= j < |b|
      ensures !HoldsVoter(b[j], w)
    {
      var off := BadgeOffset(s.anonymous, s.limited);
      if IsButtonSlot(j, |options|, off) {
        var i := (j - off - 2) / 2;
        ButtonIndexOfInitial(question, options, s, i);
        assert j == Slot(i, off);
      } else {
        assert !HasButton(b[j]);
      }
    }
    NoHolderNoVotes(b, w);
  }

  /** Blocks none of which lists the user count no votes. */
  lemma {:induction false} NoHolderNoVotes(blocks: seq<Block>, w: string)
    requires forall j :: 0 <= j < |blocks| ==> !HoldsVoter(blocks[j], w)
    ensures VoteCount(blocks, w) == 0
  {
    if |blocks| > 0 {
      NoHolderNoVotes(blocks[..|blocks| - 1], w);
    }
  }

  /**
   * Whatever the clicks on a posted poll, every option's voters stay distinct and its
   * caption renders them, and on a poll limited to a positive number of votes no user
   * ever holds more votes than that.
   */
  lemma PollHistory(question: string, options: seq<string>, s: Settings, clicks: seq<Click>, w: string)
    ensures PollShape(Replay(PollBlocks(question, options, s), s, clicks), |options|, s)
    ensures s.limited && s.limit.Some? && s.limit.value > 0 ==>
      VoteCount(Replay(PollBlocks(question, options, s), s, clicks), w) <= s.limit.value
  {
    InitialShape(question, options, s);
    FreshPollNoVotes(question, options, s, w);
    ReplayInvariant(PollBlocks(question, options, s), |options|, s, clicks, w);
  }

  /** A poll limited to 0 votes enforces nothing: every click on an option is accepted. */
  lemma ZeroLimitUnenforced(blocks: seq<Block>, n: nat, s: Settings, i: int, user: string)
    requires PollShape(blocks, n, s) && 0 <= i < n && s.limit == Some(0)
    ensures ApplyAction(blocks, user, OptionValue(blocks, n, s, i)).Updated?
  {
    ClickFrame(blocks, n, s, i, user);
  }
}
