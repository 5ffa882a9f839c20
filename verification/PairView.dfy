/** The rows of likes, exclusions and chats with every chat named by its pair instead of its
    id, and what serial operations do to them. */
module PairView {
  import opened Schema
  import opened RibbonStore
  import R = RibbonRuns

  datatype View = View(swipes: set<Pair>, bans: map<Pair, bool>, chats: map<Pair, bool>)

  const BLANK := View({}, map[], map[])

  /** Both orders of a pair have one key (LEAST, GREATEST). */
  function Key(a: int, b: int): Pair {
    if a <= b then (a, b) else (b, a)
  }

  function KeyOf(chat: Chat): Pair {
    Key(chat.user1, chat.user2)
  }

  lemma SameKey(chat: Chat, a: int, b: int)
    ensures KeyOf(chat) == Key(a, b) <==> IsBetween(chat, a, b)
  {
  }

  ghost predicate HasKey(chats: map<int, Chat>, k: Pair) {
    exists id :: id in chats && KeyOf(chats[id]) == k
  }

  /** The chats of v are these, one a pair, as active as they are. */
  ghost predicate ShowsChats(chats: map<int, Chat>, v: map<Pair, bool>) {
    && (forall id :: id in chats ==> KeyOf(chats[id]) in v && v[KeyOf(chats[id])] == chats[id].isActive)
    && (forall k :: k in v ==> HasKey(chats, k))
  }

  ghost predicate Shows(db: Tables, v: View) {
    db.swipes == v.swipes && db.exclusions == v.bans && ShowsChats(db.chats, v.chats)
  }

  lemma ChatIffKey(chats: map<int, Chat>, v: map<Pair, bool>, a: int, b: int)
    requires ShowsChats(chats, v)
    ensures Key(a, b) in v <==> exists id :: id in chats && IsBetween(chats[id], a, b)
  {
    if Key(a, b) in v {
      assert HasKey(chats, Key(a, b));
      var id :| id in chats && KeyOf(chats[id]) == Key(a, b);
      SameKey(chats[id], a, b);
    }
    if id :| id in chats && IsBetween(chats[id], a, b) {
      SameKey(chats[id], a, b);
    }
  }

  lemma AddChat(chats: map<int, Chat>, v: map<Pair, bool>, id: int, chat: Chat)
    requires ShowsChats(chats, v) && id !in chats && KeyOf(chat) !in v
    ensures ShowsChats(chats[id := chat], v[KeyOf(chat) := chat.isActive])
  {
    var after, shown := chats[id := chat], v[KeyOf(chat) := chat.isActive];
    forall k | k in shown
      ensures HasKey(after, k)
    {
      if k == KeyOf(chat) {
        assert KeyOf(after[id]) == k;
      } else {
        var i :| i in chats && KeyOf(chats[i]) == k;
        assert i in after && KeyOf(after[i]) == k;
      }
    }
  }

  function Close(v: map<Pair, bool>, k: Pair): map<Pair, bool> {
    if k in v then v[k := false] else v
  }

  lemma SameKeys(chats: map<int, Chat>, after: map<int, Chat>, key: Pair)
    requires after.Keys == chats.Keys && forall id :: id in chats ==> KeyOf(after[id]) == KeyOf(chats[id])
    ensures HasKey(chats, key) ==> HasKey(after, key)
  {
    if HasKey(chats, key) {
      var id :| id in chats && KeyOf(chats[id]) == key;
      assert id in after && KeyOf(after[id]) == key;
    }
  }

  lemma CloseChats(chats: map<int, Chat>, after: map<int, Chat>, v: map<Pair, bool>, k: Pair)
    requires ShowsChats(chats, v) && after.Keys == chats.Keys
    requires forall id :: id in chats ==>
               after[id] == if KeyOf(chats[id]) == k then chats[id].(isActive := false) else chats[id]
    ensures ShowsChats(after, Close(v, k))
  {
    var closed := Close(v, k);
    forall id | id in after
      ensures KeyOf(after[id]) == KeyOf(chats[id]) && KeyOf(after[id]) in closed && closed[KeyOf(after[id])] == after[id].isActive
    {
      assert KeyOf(chats[id]) in v && v[KeyOf(chats[id])] == chats[id].isActive;
    }
    forall key | key in closed
      ensures HasKey(after, key)
    {
      SameKeys(chats, after, key);
    }
  }

  // ----- Operations -----

  predicate IsExcluded(v: View, a: int, b: int) {
    (a, b) in v.bans || (b, a) in v.bans
  }

  /** What a like that is let through does. */
  function LikeEffect(v: View, a: int, b: int): View {
    v.(swipes := v.swipes + {(a, b)},
       chats := if (b, a) in v.swipes && Key(a, b) !in v.chats then v.chats[Key(a, b) := true] else v.chats)
  }

  function Apply(v: View, op: R.Op): View {
    match op
    case Like(a, b) => if IsExcluded(v, a, b) then v else LikeEffect(v, a, b)
    case Dislike(a, b) => v.(bans := v.bans[(a, b) := (a, b) in v.bans && v.bans[(a, b)]])
    case Block(a, b) => v.(bans := v.bans[(a, b) := true], chats := Close(v.chats, Key(a, b)))
    case Unblock(a, b) => if (a, b) in v.bans && v.bans[(a, b)] then v.(bans := v.bans - {(a, b)}) else v
    case _ => v
  }

  function Run(v: View, ops: seq<R.Op>): View {
    if ops == [] then v else Apply(Run(v, ops[..|ops| - 1]), ops[|ops| - 1])
  }

  lemma RunSnoc(v: View, ops: seq<R.Op>, op: R.Op)
    ensures Run(v, ops + [op]) == Apply(Run(v, ops), op)
  {
    assert (ops + [op])[..|ops|] == ops;
  }

  lemma {:induction false} RunConcat(v: View, first: seq<R.Op>, second: seq<R.Op>)
    ensures Run(v, first + second) == Run(Run(v, first), second)
  {
    if second == [] {
      assert first + second == first;
    } else {
      var last := |second| - 1;
      assert (first + second)[..|first| + last] == first + second[..last];
      RunConcat(v, first, second[..last]);
    }
  }

  predicate IsPairOp(op: R.Op) {
    op.Like? || op.Dislike? || op.Block? || op.Unblock?
  }

  /** The operation reads and writes the swipes or the chat of the pair. */
  predicate Contends(op: R.Op, a: int, b: int) {
    (op.Like? || op.Block?) && Key(op.actor, op.target) == Key(a, b)
  }

  /** An effect of a like commutes with everything but likes and blocks of its pair. */
  lemma LikeCommutes(v: View, op: R.Op, a: int, b: int)
    requires !Contends(op, a, b)
    ensures Apply(LikeEffect(v, a, b), op) == LikeEffect(Apply(v, op), a, b)
  {
    match op
    case Like(c, d) => TwoLikesCommute(v, c, d, a, b);
    case Block(c, d) =>
      assert Close(LikeEffect(v, a, b).chats, Key(c, d)) == LikeEffect(Apply(v, op), a, b).chats;
    case _ =>
  }

  lemma TwoLikesCommute(v: View, c: int, d: int, a: int, b: int)
    requires Key(c, d) != Key(a, b)
    ensures LikeEffect(LikeEffect(v, a, b), c, d) == LikeEffect(LikeEffect(v, c, d), a, b)
  {
    assert v.swipes + {(a, b)} + {(c, d)} == v.swipes + {(c, d)} + {(a, b)};
  }

  lemma {:induction false} LikeCommutesWithAll(v: View, ops: seq<R.Op>, a: int, b: int)
    requires forall i :: 0 <= i < |ops| ==> !Contends(ops[i], a, b)
    ensures Run(LikeEffect(v, a, b), ops) == LikeEffect(Run(v, ops), a, b)
  {
    if ops != [] {
      LikeCommutesWithAll(v, ops[..|ops| - 1], a, b);
      LikeCommutes(Run(v, ops[..|ops| - 1]), ops[|ops| - 1], a, b);
    }
  }

  // ----- The serial transactions do the same -----

  /** Both users are registered, with active profiles. */
  predicate Known(db: Tables, a: int, b: int) {
    a != b && a in db.users && b in db.users && HasActiveProfile(db, a) && HasActiveProfile(db, b)
  }

  lemma LikeShows(db: Tables, v: View, a: int, b: int)
    requires R.Inv(db) && Shows(db, v) && Known(db, a, b)
    ensures Shows(R.Apply(db, R.Like(a, b)).0, Apply(v, R.Like(a, b)))
  {
    var liked := db.(swipes := db.swipes + {(a, b)});
    ChatIffKey(db.chats, v.chats, a, b);
    assert HasChat(liked, a, b) <==> Key(a, b) in v.chats by {
      if HasChat(liked, a, b) {
        var id :| id in liked.chats && IsChatOf(liked, id, a, b);
      }
      if id :| id in db.chats && IsBetween(db.chats[id], a, b) {
        assert IsChatOf(liked, id, a, b);
      }
    }
    if Key(a, b) !in v.chats {
      AddChat(db.chats, v.chats, db.nextChatId, Chat(a, b, true));
    }
  }

  lemma BlockShows(db: Tables, v: View, a: int, b: int)
    requires Shows(db, v) && Known(db, a, b)
    ensures Shows(R.Apply(db, R.Block(a, b)).0, Apply(v, R.Block(a, b)))
  {
    var after := DeactivateBetween(db.chats, a, b);
    forall id | id in db.chats
      ensures after[id] == if KeyOf(db.chats[id]) == Key(a, b) then db.chats[id].(isActive := false) else db.chats[id]
    {
      SameKey(db.chats[id], a, b);
    }
    CloseChats(db.chats, after, v.chats, Key(a, b));
  }

  lemma ApplyShows(db: Tables, v: View, op: R.Op)
    requires R.Inv(db) && Shows(db, v) && IsPairOp(op) && Known(db, op.actor, op.target)
    ensures Shows(R.Apply(db, op).0, Apply(v, op))
  {
    match op
    case Like(a, b) => LikeShows(db, v, a, b);
    case Block(a, b) => BlockShows(db, v, a, b);
    case _ =>
  }

  lemma {:induction false} RunShows(db: Tables, v: View, ops: seq<R.Op>)
    requires R.Inv(db) && Shows(db, v)
    requires forall i :: 0 <= i < |ops| ==> IsPairOp(ops[i]) && Known(db, ops[i].actor, ops[i].target)
    ensures Shows(R.Run(db, ops), Run(v, ops)) && R.Inv(R.Run(db, ops))
    ensures R.Run(db, ops).users == db.users && R.Run(db, ops).profiles == db.profiles
  {
    if ops != [] {
      var front, last := ops[..|ops| - 1], ops[|ops| - 1];
      RunShows(db, v, front);
      R.ApplyKeeps(R.Run(db, front), last);
      assert Known(R.Run(db, front), last.actor, last.target);
      ApplyShows(R.Run(db, front), Run(v, front), last);
    }
  }
}
