/**
 * The rating buttons of assets/app.js: the vote kept in the browser's local
 * storage under `jvhub.vote.<id>`, the press of a like or dislike button,
 * and the counts shown beside the buttons.
 */
module Voting {
  import opened Options
  import opened Strings
  import opened Js
  import Display

  datatype VoteType = Like | Dislike

  /** The text a vote is stored as, and the `data-type` of its button. */
  function VoteName(v: VoteType): string {
    match v
    case Like => "like"
    case Dislike => "dislike"
  }

  const VoteKeyPrefix := "jvhub.vote."

  /** `voteStorageKey(songId)` */
  function VoteStorageKey(songId: string): (key: string)
    ensures VoteKeyPrefix <= key && key[|VoteKeyPrefix|..] == songId
  {
    VoteKeyPrefix + songId
  }

  /** Two songs never share a key. */
  lemma VoteStorageKeyInjective(a: string, b: string)
    ensures VoteStorageKey(a) == VoteStorageKey(b) <==> a == b
  {
    if VoteStorageKey(a) == VoteStorageKey(b) {
      assert a == VoteStorageKey(a)[|VoteKeyPrefix|..];
    }
  }

  /** What `getStoredVote` makes of the stored text: `like` and `dislike` are votes, anything else is none. */
  function ParseVote(stored: Option<string>): (v: Option<VoteType>)
    ensures v.Some? <==> stored == Some("like") || stored == Some("dislike")
    ensures v.Some? ==> stored == Some(VoteName(v.value))
  {
    if stored == Some("like") then Some(Like)
    else if stored == Some("dislike") then Some(Dislike)
    else None
  }

  /** The vote stored for a song in the entries `items`. */
  function StoredVote(items: map<string, string>, songId: string): Option<VoteType> {
    var key := VoteStorageKey(songId);
    ParseVote(if key in items then Some(items[key]) else None)
  }

  /** The entries after `setStoredVote(songId, vote)`: no vote removes the entry, a vote writes its name. */
  function WithVote(items: map<string, string>, songId: string, vote: Option<VoteType>): map<string, string> {
    var key := VoteStorageKey(songId);
    match vote
    case None => items - {key}
    case Some(v) => items[key := VoteName(v)]
  }

  /** Reading a song's vote after writing it gives back what was written, no vote included. */
  lemma StoredVoteAfterWrite(items: map<string, string>, songId: string, vote: Option<VoteType>)
    ensures StoredVote(WithVote(items, songId, vote), songId) == vote
  {
  }

  /** Writing a song's vote leaves every other entry as it was. */
  lemma WriteKeepsOtherEntries(items: map<string, string>, songId: string, vote: Option<VoteType>, key: string)
    requires key != VoteStorageKey(songId)
    ensures key in WithVote(items, songId, vote) <==> key in items
    ensures key in items ==> WithVote(items, songId, vote)[key] == items[key]
  {
  }

  /** Writing a song's vote leaves every other song's vote as it was. */
  lemma WriteKeepsOtherVotes(items: map<string, string>, songId: string, vote: Option<VoteType>, other: string)
    requires other != songId
    ensures StoredVote(WithVote(items, songId, vote), other) == StoredVote(items, other)
  {
    VoteStorageKeyInjective(songId, other);
    WriteKeepsOtherEntries(items, songId, vote, VoteStorageKey(other));
  }

  /**
   * The browser's `localStorage`, as far as the votes go. When `available` is
   * false every access throws, and the `try`/`catch` of both helpers turns
   * that into no vote read and nothing written.
   */
  class VoteStore {
    var items: map<string, string>
    var available: bool

    constructor (items: map<string, string>, available: bool)
      ensures this.items == items && this.available == available
    {
      this.items := items;
      this.available := available;
    }

    /** `getStoredVote(songId)` */
    method GetStoredVote(songId: string) returns (v: Option<VoteType>)
      ensures v == if available then StoredVote(items, songId) else None
    {
      if !available {
        return None;
      }
      var key := VoteStorageKey(songId);
      var stored := if key in items then Some(items[key]) else None;
      v := ParseVote(stored);
    }

    /** `setStoredVote(songId, vote)` */
    method SetStoredVote(songId: string, vote: Option<VoteType>)
      modifies this
      ensures available == old(available)
      ensures items == if available then WithVote(old(items), songId, vote) else old(items)
    {
      if !available {
        return;
      }
      var key := VoteStorageKey(songId);
      if vote.None? {
        items := items - {key};
      } else {
        items := items[key := VoteName(vote.value)];
      }
    }
  }

  // ---------------------------------------------------------------- a press

  /** The vote after a press, and the changes it asks of the two counters. */
  datatype Press = Press(vote: Option<VoteType>, likeDelta: int, dislikeDelta: int)

  /** 1 when `vote` is `t`: what one visitor's vote adds to the counter of `t`. */
  function Counted(vote: Option<VoteType>, t: VoteType): int {
    if vote == Some(t) then 1 else 0
  }

  /**
   * The click handler's decision: pressing the button of the current vote
   * takes the vote back; pressing the other one (or any, with no vote) takes
   * back the current vote, if any, and votes for the pressed type. Each
   * counter moves by exactly what this visitor's vote for it changed by.
   */
  function PressOutcome(myVote: Option<VoteType>, pressed: VoteType): (p: Press)
    ensures p.vote == if myVote == Some(pressed) then None else Some(pressed)
    ensures p.likeDelta == Counted(p.vote, Like) - Counted(myVote, Like)
    ensures p.dislikeDelta == Counted(p.vote, Dislike) - Counted(myVote, Dislike)
  {
    if myVote == Some(pressed) then
      Press(None, if pressed == Like then -1 else 0, if pressed == Dislike then -1 else 0)
    else
      var likeTaken := if myVote == Some(Like) then -1 else 0;
      var dislikeTaken := if myVote == Some(Dislike) then -1 else 0;
      Press(Some(pressed),
            likeTaken + (if pressed == Like then 1 else 0),
            dislikeTaken + (if pressed == Dislike then 1 else 0))
  }

  /** Every press moves each counter by at most one, and moves at least one of them. */
  lemma PressDeltasAreSmall(myVote: Option<VoteType>, pressed: VoteType)
    ensures var p := PressOutcome(myVote, pressed);
      && -1 <= p.likeDelta <= 1 && -1 <= p.dislikeDelta <= 1
      && (p.likeDelta != 0 || p.dislikeDelta != 0)
  {
  }

  /**
   * Two presses of the same button: the counters move, in total, by what the
   * vote changed by, and the vote ends as the pressed type when it started
   * as the other one, and as it started otherwise.
   */
  lemma PressTwice(myVote: Option<VoteType>, pressed: VoteType)
    ensures var p := PressOutcome(myVote, pressed);
      var q := PressOutcome(p.vote, pressed);
      && q.vote == (if myVote.Some? && myVote != Some(pressed) then None else myVote)
      && p.likeDelta + q.likeDelta == Counted(q.vote, Like) - Counted(myVote, Like)
      && p.dislikeDelta + q.dislikeDelta == Counted(q.vote, Dislike) - Counted(myVote, Dislike)
  {
  }

  /** From no vote, or from a vote for the pressed type, a second press undoes the first. */
  lemma PressTwiceUndoes(myVote: Option<VoteType>, pressed: VoteType)
    requires myVote == None || myVote == Some(pressed)
    ensures var p := PressOutcome(myVote, pressed);
      var q := PressOutcome(p.vote, pressed);
      q.vote == myVote && p.likeDelta + q.likeDelta == 0 && p.dislikeDelta + q.dislikeDelta == 0
  {
    PressTwice(myVote, pressed);
  }

  /** The optimistic count: `Math.max(0, safeInt(text) + delta)`, the larger of 0 and the shifted count. */
  function Optimistic(text: string, delta: int): (n: nat)
    ensures n >= Display.SafeInt(text) + delta
    ensures n == 0 || n == Display.SafeInt(text) + delta
  {
    if Display.SafeInt(text) + delta < 0 then 0 else Display.SafeInt(text) + delta
  }

  /** The optimistic count the page shows reads back as itself, so the next press starts from it. */
  lemma OptimisticReadsBack(text: string, delta: int)
    ensures Display.SafeInt(IntToString(Optimistic(text, delta))) == Optimistic(text, delta)
    ensures Optimistic(text, delta) == if Display.SafeInt(text) + delta < 0 then 0 else Display.SafeInt(text) + delta
  {
    Display.SafeIntOfIntToString(Optimistic(text, delta), "");
    assert IntToString(Optimistic(text, delta)) + "" == IntToString(Optimistic(text, delta));
  }

  /** `value ?? text` written into `textContent`: `null` and `undefined` keep the text. */
  function Shown(value: Value, text: string): (r: string)
    ensures value.Null? || value.Undefined? ==> r == text
    ensures value.Number? ==> r == NumToStr(value.n)
  {
    if value.Null? || value.Undefined? then text else ToStr(value)
  }

  /** A count the server sends as an integer is shown so that it reads back as that integer. */
  lemma ShownCountReadsBack(k: int, text: string)
    ensures Display.SafeInt(Shown(Number(Int(k)), text)) == k
  {
    Display.SafeIntOfIntToString(k, "");
    assert IntToString(k) + "" == IntToString(k);
  }

  // ---------------------------------------------------------------- the widget

  /**
   * The rating part of one song card: the visitor's vote, which of the two
   * buttons is marked active, and the texts of the two counters.
   */
  class RatingWidget {
    const songId: string
    const store: VoteStore
    var myVote: Option<VoteType>
    var likeActive: bool
    var dislikeActive: bool
    var likeText: string
    var dislikeText: string

    /** Exactly the button of the current vote is active. */
    predicate Valid()
      reads this
    {
      likeActive == (myVote == Some(Like)) && dislikeActive == (myVote == Some(Dislike))
    }

    /** Wiring a card: the stored vote is read and its button marked. */
    constructor (songId: string, store: VoteStore, likeText: string, dislikeText: string)
      ensures Valid()
      ensures this.songId == songId && this.store == store
      ensures myVote == if store.available then StoredVote(store.items, songId) else None
      ensures this.likeText == likeText && this.dislikeText == dislikeText
    {
      var v := store.GetStoredVote(songId);
      this.songId := songId;
      this.store := store;
      myVote := v;
      likeActive := v == Some(Like);
      dislikeActive := v == Some(Dislike);
      this.likeText := likeText;
      this.dislikeText := dislikeText;
    }

    /**
     * A click on the button of type `pressed`: the vote and the buttons
     * change as `PressOutcome` says, the new vote is stored, and each counter
     * shows its optimistic count. The deltas are what is sent to the server.
     */
    method Click(pressed: VoteType) returns (likeDelta: int, dislikeDelta: int)
      requires Valid()
      modifies this, store
      ensures Valid()
      ensures var p := PressOutcome(old(myVote), pressed);
        myVote == p.vote && likeDelta == p.likeDelta && dislikeDelta == p.dislikeDelta
      ensures store.available == old(store.available)
      ensures store.items == if store.available then WithVote(old(store.items), songId, myVote) else old(store.items)
      ensures likeText == IntToString(Optimistic(old(likeText), likeDelta))
      ensures dislikeText == IntToString(Optimistic(old(dislikeText), dislikeDelta))
    {
      likeDelta, dislikeDelta := ChangeVote(pressed);
      store.SetStoredVote(songId, myVote);
      var likes, dislikes := Optimistic(likeText, likeDelta), Optimistic(dislikeText, dislikeDelta);
      ShowCounts(likes, dislikes);
    }

    /** The two counters show these counts. */
    method ShowCounts(likes: nat, dislikes: nat)
      modifies this
      ensures likeText == IntToString(likes) && dislikeText == IntToString(dislikes)
      ensures myVote == old(myVote) && likeActive == old(likeActive) && dislikeActive == old(dislikeActive)
    {
      likeText, dislikeText := IntToString(likes), IntToString(dislikes);
    }

    /** The vote and the buttons after a click, and the deltas it asks for. */
    method ChangeVote(pressed: VoteType) returns (likeDelta: int, dislikeDelta: int)
      requires Valid()
      modifies this
      ensures Valid()
      ensures var p := PressOutcome(old(myVote), pressed);
        myVote == p.vote && likeDelta == p.likeDelta && dislikeDelta == p.dislikeDelta
      ensures likeText == old(likeText) && dislikeText == old(dislikeText)
    {
      likeDelta, dislikeDelta := 0, 0;
      if myVote == Some(pressed) {
        if pressed == Like {
          likeDelta := -1;
          likeActive := false;
        }
        if pressed == Dislike {
          dislikeDelta := -1;
          dislikeActive := false;
        }
        myVote := None;
      } else {
        if myVote == Some(Like) {
          likeDelta := -1;
          likeActive := false;
        }
        if myVote == Some(Dislike) {
          dislikeDelta := -1;
          dislikeActive := false;
        }
        if pressed == Like {
          likeDelta := likeDelta + 1;
          likeActive := true;
        }
        if pressed == Dislike {
          dislikeDelta := dislikeDelta + 1;
          dislikeActive := true;
        }
        myVote := Some(pressed);
      }
    }

    /** The server's reply to the vote: each count it sends replaces the shown one, `null` keeps it. */
    method Settle(likes: Value, dislikes: Value)
      modifies this
      ensures likeText == Shown(likes, old(likeText)) && dislikeText == Shown(dislikes, old(dislikeText))
      ensures myVote == old(myVote) && likeActive == old(likeActive) && dislikeActive == old(dislikeActive)
    {
      likeText := Shown(likes, likeText);
      dislikeText := Shown(dislikes, dislikeText);
    }

    /** `loadRatings`: the counts read from the server, a missing one shown as 0. */
    method Reload(likes: Value, dislikes: Value)
      modifies this
      ensures likeText == Shown(likes, "0") && dislikeText == Shown(dislikes, "0")
      ensures myVote == old(myVote) && likeActive == old(likeActive) && dislikeActive == old(dislikeActive)
    {
      likeText := Shown(likes, "0");
      dislikeText := Shown(dislikes, "0");
    }
  }
}
