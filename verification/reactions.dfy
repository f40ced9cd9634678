/** Message reactions (routes/messageRoutes.js, POST /messages/:id/reactions):
    each user holds at most one reaction per message.  Reacting with the
    emoji already held removes it, reacting with another emoji replaces it
    in place, and a first reaction is appended. */
module Reactions {
  import opened Common

  datatype Reaction = Reaction(emoji: string, user: string)

  /** Index of the user's first reaction, or -1 (`findIndex`). */
  function FindByUser(rs: seq<Reaction>, user: string): (i: int)
    ensures -1 <= i < |rs|
    ensures i >= 0 ==> rs[i].user == user && forall j :: 0 <= j < i ==> rs[j].user != user
    ensures i < 0 ==> forall j :: 0 <= j < |rs| ==> rs[j].user != user
  {
    if rs == [] then -1
    else if rs[0].user == user then 0
    else
      var k := FindByUser(rs[1..], user);
      if k < 0 then -1 else k + 1
  }

  /** The reaction handler's update of `message.reactions`. */
  function React(rs: seq<Reaction>, user: string, emoji: string): seq<Reaction> {
    var i := FindByUser(rs, user);
    if i >= 0 then
      if rs[i].emoji == emoji then rs[..i] + rs[i + 1..]
      else rs[i := Reaction(emoji, user)]
    else rs + [Reaction(emoji, user)]
  }

  /** No user appears twice in the reaction list. */
  predicate OnePerUser(rs: seq<Reaction>) {
    forall i, j :: 0 <= i < j < |rs| ==> rs[i].user != rs[j].user
  }

  /** The emoji a user currently shows, if any. */
  function ReactionOf(rs: seq<Reaction>, user: string): Option<string> {
    var i := FindByUser(rs, user);
    if i >= 0 then Some(rs[i].emoji) else None
  }

  /** Everyone else's reactions, in order. */
  function Others(rs: seq<Reaction>, user: string): seq<Reaction> {
    if rs == [] then [] else (if rs[0].user == user then [] else [rs[0]]) + Others(rs[1..], user)
  }

  lemma {:induction false} OthersAppend(a: seq<Reaction>, b: seq<Reaction>, user: string)
    ensures Others(a + b, user) == Others(a, user) + Others(b, user)
  {
    if a == [] {
      assert a + b == b;
    } else {
      assert (a + b)[1..] == a[1..] + b;
      OthersAppend(a[1..], b, user);
    }
  }

  /** Dropping one's own reaction from the middle does not change Others. */
  lemma OthersAroundOwn(pre: seq<Reaction>, r: Reaction, post: seq<Reaction>, user: string)
    requires r.user == user
    ensures Others(pre + [r] + post, user) == Others(pre, user) + Others(post, user)
  {
    OthersAppend(pre + [r], post, user);
    OthersAppend(pre, [r], user);
  }

  /** The reaction list after the handler keeps at most one reaction per user. */
  lemma ReactKeepsOnePerUser(rs: seq<Reaction>, user: string, emoji: string)
    requires OnePerUser(rs)
    ensures OnePerUser(React(rs, user, emoji))
  {
    var i := FindByUser(rs, user);
    var r := React(rs, user, emoji);
    if i >= 0 && rs[i].emoji == emoji {
      forall a, b | 0 <= a < b < |r| ensures r[a].user != r[b].user {
        var a' := if a < i then a else a + 1;
        var b' := if b < i then b else b + 1;
        assert r[a] == rs[a'] && r[b] == rs[b'];
      }
    }
  }

  /** The user's own reaction afterwards: gone if it was the same emoji,
      otherwise exactly the new emoji. */
  lemma ReactOutcome(rs: seq<Reaction>, user: string, emoji: string)
    requires OnePerUser(rs)
    ensures ReactionOf(React(rs, user, emoji), user) ==
      (if ReactionOf(rs, user) == Some(emoji) then None else Some(emoji))
  {
    var i := FindByUser(rs, user);
    var r := React(rs, user, emoji);
    if i >= 0 && rs[i].emoji == emoji {
      forall j | 0 <= j < |r| ensures r[j].user != user {
        if j < i { assert r[j] == rs[j]; } else { assert r[j] == rs[j + 1]; }
      }
    } else if i >= 0 {
      assert r[i].user == user;
      assert forall j :: 0 <= j < i ==> r[j] == rs[j];
    } else {
      assert r[|rs|].user == user;
      assert forall j :: 0 <= j < |rs| ==> r[j] == rs[j];
    }
  }

  /** Reactions of every other user are untouched, in content and order. */
  lemma ReactLeavesOthers(rs: seq<Reaction>, user: string, emoji: string)
    ensures Others(React(rs, user, emoji), user) == Others(rs, user)
  {
    var i := FindByUser(rs, user);
    if i >= 0 {
      var pre, post := rs[..i], rs[i + 1..];
      assert rs == pre + [rs[i]] + post;
      OthersAroundOwn(pre, rs[i], post, user);
      if rs[i].emoji != emoji {
        assert rs[i := Reaction(emoji, user)] == pre + [Reaction(emoji, user)] + post;
        OthersAroundOwn(pre, Reaction(emoji, user), post, user);
      } else {
        OthersAppend(pre, post, user);
      }
    } else {
      OthersAppend(rs, [Reaction(emoji, user)], user);
    }
  }

  /** Reacting twice with the same emoji, starting without a reaction,
      restores the list. */
  lemma ReactTwiceRestores(rs: seq<Reaction>, user: string, emoji: string)
    requires ReactionOf(rs, user) == None
    ensures React(React(rs, user, emoji), user, emoji) == rs
  {
    var r := rs + [Reaction(emoji, user)];
    assert FindByUser(rs, user) < 0;
    assert React(rs, user, emoji) == r;
    assert forall j :: 0 <= j < |rs| ==> r[j] == rs[j] && r[j].user != user;
    assert r[|rs|].user == user;
    assert FindByUser(r, user) == |rs|;
    assert r[..|rs|] == rs && r[|rs| + 1..] == [];
  }
}
