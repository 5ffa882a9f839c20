/** Like, Dislike, Block and Unblock as the service offers them: validation, the
    transaction, then the analytics events. */
module RibbonService {
  import opened Common
  import opened Schema
  import opened RibbonStore
  import R = RibbonRuns
  import P = Publisher

  datatype Value = Number(n: int) | Flag(b: bool) | Text(s: string)

  datatype Event = Event(kind: string, payload: map<string, Value>)

  const SWIPE := "swipe"
  const MATCH := "match"
  const BLOCK := "block"

  /** The fields publish adds to a payload. */
  function Addressed(payload: map<string, Value>, user: int, target: int, at: string): map<string, Value> {
    payload["user_id" := Number(user)]["target_user_id" := Number(target)]["occurred_at" := Text(at)]
  }

  function SwipeEvent(user: int, target: int, liked: bool, at: string): Event {
    Event(SWIPE, Addressed(map["liked" := Flag(liked)], user, target, at))
  }

  function MatchEvent(user: int, target: int, chat: int, at: string): Event {
    Event(MATCH, Addressed(map["chat_id" := Number(chat)], user, target, at))
  }

  function BlockEvent(user: int, target: int, at: string): Event {
    Event(BLOCK, Addressed(map[], user, target, at))
  }

  predicate IsValidTarget(user: int, target: int) {
    target > 0 && target != user
  }

  predicate IsValid(op: R.Op) {
    match op
    case Like(a, b) => IsValidTarget(a, b)
    case Dislike(a, b) => IsValidTarget(a, b)
    case Block(a, b) => IsValidTarget(a, b)
    case Unblock(a, b) => IsValidTarget(a, b)
    case _ => true
  }

  /** What is published for an operation that was answered with reply. */
  function EventsOf(op: R.Op, reply: R.Reply, at: string): seq<Event> {
    match (op, reply)
    case (Like(a, b), Liked(Some(chat))) => [SwipeEvent(a, b, true, at), MatchEvent(a, b, chat, at)]
    case (Like(a, b), Liked(None)) => [SwipeEvent(a, b, true, at)]
    case (Dislike(a, b), Done) => [SwipeEvent(a, b, false, at)]
    case (Block(a, b), Done) => [BlockEvent(a, b, at)]
    case _ => []
  }

  /** An event of a known kind: who did it to whom, when, and one more fact. */
  ghost predicate Tells(event: Event, kind: string, user: int, target: int, at: string, key: string, value: Value) {
    && event.kind == kind
    && event.payload == map["user_id" := Number(user), "target_user_id" := Number(target), "occurred_at" := Text(at),
                            key := value]
  }

  /** The events field by field: a like is one swipe event and, with a chat, one match event after
      it; a dislike is a swipe event that says so. */
  lemma EventsAreTold(a: int, b: int, chat: int, at: string)
    ensures Tells(SwipeEvent(a, b, true, at), "swipe", a, b, at, "liked", Flag(true))
    ensures EventsOf(R.Like(a, b), R.Liked(None), at) == [SwipeEvent(a, b, true, at)]
    ensures Tells(MatchEvent(a, b, chat, at), "match", a, b, at, "chat_id", Number(chat))
    ensures EventsOf(R.Like(a, b), R.Liked(Some(chat)), at) == [SwipeEvent(a, b, true, at), MatchEvent(a, b, chat, at)]
    ensures Tells(SwipeEvent(a, b, false, at), "swipe", a, b, at, "liked", Flag(false))
    ensures EventsOf(R.Dislike(a, b), R.Done, at) == [SwipeEvent(a, b, false, at)]
    ensures Tells(BlockEvent(a, b, at), "block", a, b, at, "user_id", Number(a))
    ensures EventsOf(R.Block(a, b), R.Done, at) == [BlockEvent(a, b, at)]
  {
    LikeIsTold(a, b, true, at);
    LikeIsTold(a, b, false, at);
    MatchIsTold(a, b, chat, at);
    BlockIsTold(a, b, at);
  }

  lemma LikeIsTold(a: int, b: int, liked: bool, at: string)
    ensures Tells(SwipeEvent(a, b, liked, at), "swipe", a, b, at, "liked", Flag(liked))
  {
  }

  lemma MatchIsTold(a: int, b: int, chat: int, at: string)
    ensures Tells(MatchEvent(a, b, chat, at), "match", a, b, at, "chat_id", Number(chat))
  {
  }

  lemma BlockIsTold(a: int, b: int, at: string)
    ensures Tells(BlockEvent(a, b, at), "block", a, b, at, "user_id", Number(a))
  {
  }

  /** What validation lets through: a target with a positive id that is not the user. */
  lemma ValidTargets(a: int, b: int)
    ensures forall op :: op in {R.Like(a, b), R.Dislike(a, b), R.Block(a, b), R.Unblock(a, b)} ==>
              (IsValid(op) <==> b > 0 && a != b)
  {
  }

  /** A refused operation tells nothing, and only likes, dislikes and blocks tell anything. */
  lemma NothingElseIsTold(op: R.Op, reply: R.Reply, at: string)
    requires reply.Refused? || !(op.Like? || op.Dislike? || op.Block?)
    ensures EventsOf(op, reply, at) == []
  {
  }

  /** The publisher after the events are published one after the other. */
  function AfterPublish(s: P.State<Event>, events: seq<Event>): P.State<Event> {
    if events == [] then s
    else P.Step(AfterPublish(s, events[..|events| - 1]), P.Publish(events[|events| - 1]))
  }

  /** Panicked: the transaction is committed, but the queue was closed when an event came. */
  datatype ServiceError = InvalidTargetUser | Store(error: StoreError) | Panicked

  datatype LikeOutput = LikeOutput(matched: bool, chatId: Option<int>)

  class Service {
    const repository: RibbonRepository
    const publisher: P.EventPublisher?<Event>

    constructor (repository: RibbonRepository, publisher: P.EventPublisher?<Event>)
      ensures this.repository == repository && this.publisher == publisher
    {
      this.repository, this.publisher := repository, publisher;
    }

    ghost function Tables(): Tables
      reads repository.db
    {
      repository.db.State()
    }

    /** Events go to the publisher when there is one; a full or closed queue does not
        undo the transaction. */
    ghost predicate HasPublished(before: P.State<Event>, events: seq<Event>)
      reads publisher
    {
      publisher != null ==> publisher.Now() == AfterPublish(before, events)
    }

    ghost predicate IsClosed()
      reads publisher
    {
      publisher != null && publisher.closed
    }

    ghost function PublisherState(): P.State<Event>
      reads publisher
    {
      if publisher == null then P.Fresh(0, 0) else publisher.Now()
    }

    method Publish(kind: string, user: int, target: int, payload: map<string, Value>, at: string)
      returns (panicked: bool)
      modifies publisher
      ensures HasPublished(old(PublisherState()), [Event(kind, Addressed(payload, user, target, at))])
      ensures panicked == old(IsClosed()) && IsClosed() == old(IsClosed())
    {
      if publisher == null {
        return false;
      }
      var fields := payload;
      fields := fields["user_id" := Number(user)];
      fields := fields["target_user_id" := Number(target)];
      fields := fields["occurred_at" := Text(at)];
      ghost var before := publisher.Now();
      var outcome := publisher.Publish(Event(kind, fields));
      PublishOne(before, Event(kind, Addressed(payload, user, target, at)));
      return outcome.Panicked?;
    }

    method Like(user: int, target: int, at: string) returns (r: Result<LikeOutput, ServiceError>)
      requires UniqueChats(Tables()) && repository.db.nextChatId !in repository.db.chats
      modifies repository.db, publisher
      ensures !IsValidTarget(user, target) ==>
                r == Failure(InvalidTargetUser) && Tables() == old(Tables()) && HasPublished(old(PublisherState()), [])
      ensures IsValidTarget(user, target) ==>
                var (after, reply) := R.Apply(old(Tables()), R.Like(user, target));
                && Tables() == after
                && HasPublished(old(PublisherState()), EventsOf(R.Like(user, target), reply, at))
                && r == (if reply.Refused? then Failure(Store(reply.error))
                         else if old(IsClosed()) then Failure(Panicked)
                         else Success(LikeOutput(reply.chat.Some?, reply.chat)))
      ensures target <= 0 || target == user ==> r == Failure(InvalidTargetUser) && Tables() == old(Tables())
      ensures r == Failure(InvalidTargetUser) ==> target <= 0 || target == user
      ensures r.Success? ==>
                && repository.db.swipes == old(repository.db.swipes) + {(user, target)}
                && r.value.matched == r.value.chatId.Some? == ((target, user) in old(repository.db.swipes))
    {
      if !IsValidTarget(user, target) {
        return Failure(InvalidTargetUser);
      }
      ghost var before := PublisherState();
      var chat := repository.CreateLike(user, target);
      if chat.Failure? {
        return Failure(Store(chat.error));
      }
      var panicked := Publish(SWIPE, user, target, map["liked" := Flag(true)], at);
      assert HasPublished(before, [SwipeEvent(user, target, true, at)]);
      if panicked {
        ClosedIgnores(before, EventsOf(R.Like(user, target), R.Liked(chat.value), at));
        PublishOne(before, SwipeEvent(user, target, true, at));
        return Failure(Panicked);
      }
      ghost var swiped := PublisherState();
      if chat.value.Some? {
        panicked := Publish(MATCH, user, target, map["chat_id" := Number(chat.value.value)], at);
        PublishTwo(before, SwipeEvent(user, target, true, at), MatchEvent(user, target, chat.value.value, at));
        assert HasPublished(swiped, [MatchEvent(user, target, chat.value.value, at)]);
        PublishOne(before, SwipeEvent(user, target, true, at));
        PublishOne(swiped, MatchEvent(user, target, chat.value.value, at));
      }
      return Success(LikeOutput(chat.value.Some?, chat.value));
    }

    method Dislike(user: int, target: int, at: string) returns (r: Result<(), ServiceError>)
      modifies repository.db, publisher
      ensures Served(old(Tables()), old(PublisherState()), old(IsClosed()), R.Dislike(user, target), at, r)
      ensures target <= 0 || target == user ==> r == Failure(InvalidTargetUser) && Tables() == old(Tables())
      ensures r == Failure(InvalidTargetUser) ==> target <= 0 || target == user
      ensures r.Success? && (user, target) !in old(repository.db.exclusions) ==>
                repository.db.exclusions == old(repository.db.exclusions)[(user, target) := false]
    {
      if !IsValidTarget(user, target) {
        return Failure(InvalidTargetUser);
      }
      var done := repository.CreateDislike(user, target);
      if done.Failure? {
        return Failure(Store(done.error));
      }
      var panicked := Publish(SWIPE, user, target, map["liked" := Flag(false)], at);
      return if panicked then Failure(Panicked) else Success(());
    }

    method Block(user: int, target: int, at: string) returns (r: Result<(), ServiceError>)
      modifies repository.db, publisher
      ensures Served(old(Tables()), old(PublisherState()), old(IsClosed()), R.Block(user, target), at, r)
      ensures target <= 0 || target == user ==> r == Failure(InvalidTargetUser) && Tables() == old(Tables())
      ensures r == Failure(InvalidTargetUser) ==> target <= 0 || target == user
      ensures r.Success? ==> repository.db.exclusions == old(repository.db.exclusions)[(user, target) := true]
    {
      if !IsValidTarget(user, target) {
        return Failure(InvalidTargetUser);
      }
      var done := repository.CreateBlock(user, target);
      if done.Failure? {
        return Failure(Store(done.error));
      }
      var panicked := Publish(BLOCK, user, target, map[], at);
      return if panicked then Failure(Panicked) else Success(());
    }

    method Unblock(user: int, target: int) returns (r: Result<(), ServiceError>)
      modifies repository.db
      ensures Served(old(Tables()), old(PublisherState()), old(IsClosed()), R.Unblock(user, target), "", r)
      ensures target <= 0 || target == user ==> r == Failure(InvalidTargetUser) && Tables() == old(Tables())
      ensures r == Failure(InvalidTargetUser) ==> target <= 0 || target == user
      ensures target > 0 && target != user ==> r == Success(()) && forall pair :: pair in repository.db.exclusions <==>
                pair in old(repository.db.exclusions) && (pair == (user, target) ==> !old(repository.db.exclusions)[pair])
    {
      if !IsValidTarget(user, target) {
        return Failure(InvalidTargetUser);
      }
      repository.RemoveBlock(user, target);
      return Success(());
    }

    /** A call that does not answer with a value: refused unchanged, or applied and published. */
    ghost predicate Served(before: Tables, queue: P.State<Event>, closed: bool, op: R.Op, at: string,
                           r: Result<(), ServiceError>)
      reads repository.db, publisher
    {
      if !IsValid(op) then r == Failure(InvalidTargetUser) && Tables() == before && HasPublished(queue, [])
      else
        var (after, reply) := R.Apply(before, op);
        && Tables() == after
        && HasPublished(queue, EventsOf(op, reply, at))
        && r == (if reply.Refused? then Failure(Store(reply.error))
                 else if closed && EventsOf(op, reply, at) != [] then Failure(Panicked) else Success(()))
    }
  }

  /** A closed queue takes nothing. */
  lemma {:induction false} ClosedIgnores(s: P.State<Event>, events: seq<Event>)
    requires s.closed
    ensures AfterPublish(s, events) == s
  {
    if events != [] {
      ClosedIgnores(s, events[..|events| - 1]);
    }
  }

  lemma PublishTwo(s: P.State<Event>, first: Event, second: Event)
    ensures AfterPublish(s, [first, second]) == P.Step(P.Step(s, P.Publish(first)), P.Publish(second))
  {
    var both := [first, second];
    PublishOne(s, first);
    assert both[..|both| - 1] == [first];
    assert AfterPublish(s, both) == P.Step(AfterPublish(s, [first]), P.Publish(both[1]));
  }

  lemma PublishOne(s: P.State<Event>, event: Event)
    ensures AfterPublish(s, [event]) == P.Step(s, P.Publish(event))
  {
    assert [event][..0] == [];
  }
}
