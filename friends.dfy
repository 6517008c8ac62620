/** The friends page of `FriendsSocial.jsx`: users move between the friend
    list and the list of users available to befriend, friends are invited to
    health events, and invitations are answered. Both lists and the
    invitations are saved to local storage. */
module Friends {
  import opened Js

  /** A user as the page lists them. */
  datatype Person = Person(id: string, name: string, avatar: string, isOnline: bool, mutualFriends: int)

  /** An event a friend can be invited to. */
  datatype EventRef = EventRef(id: int, title: string, date: string)

  /** The logged-in user as read back from `sneho_user`. */
  datatype SessionUser = SessionUser(id: string, name: string)

  /** An invitation to an event. */
  datatype Invitation = Invitation(
    id: int, eventId: int, eventTitle: string, eventDate: string,
    fromUserId: string, fromUserName: string, toUserId: string, toUserName: string,
    status: string, sentAt: string)

  /** The events on offer. */
  const Events: seq<EventRef> := [
    EventRef(1, "বিনামূল্যে ডায়াবেটিস স্ক্রিনিং", "২০২৪-১২-১৫"),
    EventRef(2, "রক্তদান শিবির", "২০২৪-১২-২০"),
    EventRef(3, "মানসিক স্বাস্থ্য সচেতনতা কর্মশালা", "২০২৪-১২-২৫")
  ]

  /** The demo users (the accounts of the login form). */
  const DemoUsers: seq<Person> := [
    Person("sneho001", "আরিফ আহমেদ", "আ", true, 3),
    Person("sneho002", "ফাতেমা বেগম", "ফ", false, 2),
    Person("sneho003", "রহিম উদ্দিন", "র", true, 5),
    Person("admin", "এডমিন", "এ", true, 1)
  ]

  /** Status strings of an invitation. */
  const Pending: string := "pending"
  const Accepted: string := "accepted"

  /** `people.some(p => p.id === id)`. */
  predicate HasId(people: seq<Person>, id: string)
  {
    exists i :: 0 <= i < |people| && people[i].id == id
  }

  /** The test of `loadAvailableUsers`: not the logged-in user (with nobody
      logged in, `currentUser?.id` is `undefined` and matches no id) and not
      yet a friend. */
  predicate IsAvailable(u: Person, currentUser: Option<SessionUser>, friends: seq<Person>)
  {
    (currentUser.None? || u.id != currentUser.value.id) && !HasId(friends, u.id)
  }

  /** `loadAvailableUsers`: the demo users that are neither the logged-in
      user nor a friend. */
  function AvailableUsers(currentUser: Option<SessionUser>, friends: seq<Person>): (r: seq<Person>)
    ensures forall i :: 0 <= i < |r| ==> r[i] in DemoUsers && IsAvailable(r[i], currentUser, friends)
    ensures forall i :: 0 <= i < |DemoUsers| && IsAvailable(DemoUsers[i], currentUser, friends) ==> DemoUsers[i] in r
  {
    Filter((u: Person) => IsAvailable(u, currentUser, friends), DemoUsers)
  }

  /** The available users keep the table order. */
  lemma AvailableUsersOrder(currentUser: Option<SessionUser>, friends: seq<Person>)
    ensures Subsequence(AvailableUsers(currentUser, friends), DemoUsers)
  {
    FilterSubsequence((u: Person) => IsAvailable(u, currentUser, friends), DemoUsers);
  }

  /** The people whose id differs from the given one, in order. */
  function WithoutId(people: seq<Person>, id: string): (r: seq<Person>)
    ensures !HasId(r, id)
    ensures forall i :: 0 <= i < |r| ==> r[i] in people
    ensures forall i :: 0 <= i < |people| && people[i].id != id ==> people[i] in r
  {
    Filter((p: Person) => p.id != id, people)
  }

  /** Removing a friend just added restores the friend list, when nobody with
      that id was a friend before. */
  lemma RemoveUndoesAdd(friends: seq<Person>, u: Person)
    requires !HasId(friends, u.id)
    ensures WithoutId(friends + [u], u.id) == friends
  {
    FilterAppend((p: Person) => p.id != u.id, friends, [u]);
    FilterAll((p: Person) => p.id != u.id, friends);
  }

  /** `respondToInvitation`'s new list: the invitations with the id take the
      response as their status, the others stay as they were. */
  function RespondIn(invitations: seq<Invitation>, invitationId: int, response: string): (r: seq<Invitation>)
    ensures |r| == |invitations|
    ensures forall i :: 0 <= i < |r| && invitations[i].id != invitationId ==> r[i] == invitations[i]
    ensures forall i :: 0 <= i < |r| && invitations[i].id == invitationId ==> r[i] == invitations[i].(status := response)
  {
    Map((inv: Invitation) => if inv.id == invitationId then inv.(status := response) else inv, invitations)
  }

  /** Answering the same invitation twice with the same response changes
      nothing the second time. */
  lemma RespondIdempotent(invitations: seq<Invitation>, invitationId: int, response: string)
    ensures RespondIn(RespondIn(invitations, invitationId, response), invitationId, response)
      == RespondIn(invitations, invitationId, response)
  {
  }

  /** The invitation is addressed to the logged-in user and not answered yet. */
  predicate Awaiting(inv: Invitation, currentUser: Option<SessionUser>)
  {
    currentUser.Some? && inv.toUserId == currentUser.value.id && inv.status == Pending
  }

  /** `getPendingInvitations`: the invitations to the logged-in user still
      awaiting an answer; none when nobody is logged in. */
  function PendingInvitations(invitations: seq<Invitation>, currentUser: Option<SessionUser>): (r: seq<Invitation>)
    ensures forall i :: 0 <= i < |r| ==> r[i] in invitations && Awaiting(r[i], currentUser)
    ensures forall i :: 0 <= i < |invitations| && Awaiting(invitations[i], currentUser) ==> invitations[i] in r
    ensures currentUser.None? ==> r == []
  {
    var awaiting := (inv: Invitation) => Awaiting(inv, currentUser);
    if currentUser.None? then
      FilterNone(awaiting, invitations);
      Filter(awaiting, invitations)
    else Filter(awaiting, invitations)
  }

  /** An answered invitation is no longer pending. */
  lemma AnsweredNotPending(invitations: seq<Invitation>, invitationId: int, response: string, currentUser: Option<SessionUser>)
    requires response != Pending
    ensures forall i :: 0 <= i < |PendingInvitations(RespondIn(invitations, invitationId, response), currentUser)| ==>
      PendingInvitations(RespondIn(invitations, invitationId, response), currentUser)[i].id != invitationId
  {
    var r := RespondIn(invitations, invitationId, response);
    var p := PendingInvitations(r, currentUser);
    forall i | 0 <= i < |p|
      ensures p[i].id != invitationId
    {
      var k :| 0 <= k < |r| && r[k] == p[i];
    }
  }

  /** `invitations.filter(inv => inv.status === 'accepted').length`. */
  function AcceptedCount(invitations: seq<Invitation>): (n: nat)
    ensures n <= |invitations|
  {
    |Filter((inv: Invitation) => inv.status == Accepted, invitations)|
  }

  /** Accepting an invitation that was pending raises the accepted count by
      the number of invitations with that id. */
  lemma {:induction false} AcceptRaisesCount(invitations: seq<Invitation>, invitationId: int)
    requires forall i :: 0 <= i < |invitations| && invitations[i].id == invitationId ==> invitations[i].status == Pending
    ensures AcceptedCount(RespondIn(invitations, invitationId, Accepted))
      == AcceptedCount(invitations) + |Filter((inv: Invitation) => inv.id == invitationId, invitations)|
  {
    if invitations != [] {
      var init := invitations[..|invitations| - 1];
      var last := invitations[|invitations| - 1];
      assert invitations == init + [last];
      AcceptRaisesCount(init, invitationId);
      RespondSnoc(init, last, invitationId, Accepted);
      AcceptedSnoc(RespondIn(init, invitationId, Accepted), if last.id == invitationId then last.(status := Accepted) else last);
      AcceptedSnoc(init, last);
      FilterAppend((inv: Invitation) => inv.id == invitationId, init, [last]);
    }
  }

  /** Answering in a list with one more invitation at the end. */
  lemma RespondSnoc(invitations: seq<Invitation>, inv: Invitation, invitationId: int, response: string)
    ensures RespondIn(invitations + [inv], invitationId, response)
      == RespondIn(invitations, invitationId, response) + [if inv.id == invitationId then inv.(status := response) else inv]
  {
  }

  /** The accepted count over a list with one more invitation at the end. */
  lemma AcceptedSnoc(invitations: seq<Invitation>, inv: Invitation)
    ensures AcceptedCount(invitations + [inv]) == AcceptedCount(invitations) + (if inv.status == Accepted then 1 else 0)
  {
    FilterAppend((inv: Invitation) => inv.status == Accepted, invitations, [inv]);
  }

  /** `friends.filter(f => f.isOnline).length`. */
  function OnlineCount(friends: seq<Person>): (n: nat)
    ensures n <= |friends|
    ensures n == 0 <==> forall i :: 0 <= i < |friends| ==> !friends[i].isOnline
  {
    var online := (f: Person) => f.isOnline;
    if forall i :: 0 <= i < |friends| ==> !friends[i].isOnline then
      FilterNone(online, friends);
      |Filter(online, friends)|
    else |Filter(online, friends)|
  }

  /** The invitation `sendEventInvitation` builds; `id` is the `Date.now()`
      reading and `sentAt` the clock as an ISO string. */
  function InvitationOf(id: int, event: EventRef, from: SessionUser, to: Person, sentAt: string): (inv: Invitation)
    ensures inv.status == Pending && inv.eventId == event.id && inv.toUserId == to.id && inv.fromUserId == from.id
  {
    Invitation(id, event.id, event.title, event.date, from.id, from.name, to.id, to.name, Pending, sentAt)
  }

  /** The friends page's state together with the local-storage entries it
      reads and writes. */
  class FriendsPage {
    var friends: seq<Person>
    var availableUsers: seq<Person>
    var selectedEvent: string
    var invitations: seq<Invitation>
    /** The `sneho_friends` entry. */
    var savedFriends: Option<seq<Person>>
    /** The `sneho_invitations` entry. */
    var savedInvitations: Option<seq<Invitation>>
    /** The `sneho_user` entry, which this page only reads. */
    const currentUser: Option<SessionUser>

    /** Mounting: friends are loaded (two demo friends when none are saved),
        the available users derived from them, and invitations loaded. */
    constructor (savedFriends: Option<seq<Person>>, savedInvitations: Option<seq<Invitation>>, currentUser: Option<SessionUser>)
      ensures this.savedFriends == savedFriends && this.savedInvitations == savedInvitations
      ensures this.currentUser == currentUser && selectedEvent == ""
      ensures friends == if savedFriends.Some? then savedFriends.value else [DemoUsers[0], DemoUsers[1]]
      ensures availableUsers == AvailableUsers(currentUser, friends)
      ensures invitations == if savedInvitations.Some? then savedInvitations.value else []
    {
      this.savedFriends := savedFriends;
      this.savedInvitations := savedInvitations;
      this.currentUser := currentUser;
      selectedEvent := "";
      var loaded := if savedFriends.Some? then savedFriends.value else [DemoUsers[0], DemoUsers[1]];
      friends := loaded;
      availableUsers := AvailableUsers(currentUser, loaded);
      invitations := if savedInvitations.Some? then savedInvitations.value else [];
    }

    /** `addFriend`: the user joins the end of the friend list, everyone with
        the user's id leaves the available list, and the friends are saved. */
    method AddFriend(user: Person)
      modifies this`friends, this`availableUsers, this`savedFriends
      ensures friends == old(friends) + [user]
      ensures availableUsers == WithoutId(old(availableUsers), user.id)
      ensures savedFriends == Some(friends)
    {
      var updatedFriends := friends + [user];
      friends := updatedFriends;
      availableUsers := WithoutId(availableUsers, user.id);
      savedFriends := Some(updatedFriends);
    }

    /** `removeFriend`: every friend with the id leaves the friend list, the
        first of them joins the end of the available list, and the friends
        are saved. */
    method RemoveFriend(friendId: string)
      requires HasId(friends, friendId)
      modifies this`friends, this`availableUsers, this`savedFriends
      ensures friends == WithoutId(old(friends), friendId)
      ensures availableUsers == old(availableUsers) + [Find((f: Person) => f.id == friendId, old(friends)).value]
      ensures savedFriends == Some(friends)
    {
      var friend := Find((f: Person) => f.id == friendId, friends);
      var updatedFriends := WithoutId(friends, friendId);
      friends := updatedFriends;
      availableUsers := availableUsers + [friend.value];
      savedFriends := Some(updatedFriends);
    }

    /** `sendEventInvitation`: nothing happens when the event or the friend is
        unknown; reading the sender's id throws when nobody is logged in;
        otherwise one pending invitation is appended and saved, and the event
        choice is cleared. */
    method SendEventInvitation(friendId: string, eventId: int, invitationId: int, sentAt: string)
      returns (err: Option<JsError>)
      modifies this`invitations, this`savedInvitations, this`selectedEvent
      ensures var event := Find((e: EventRef) => e.id == eventId, Events);
        var friend := Find((f: Person) => f.id == friendId, friends);
        if event.None? || friend.None? || currentUser.None? then
          invitations == old(invitations) && savedInvitations == old(savedInvitations)
          && selectedEvent == old(selectedEvent)
          && err == (if event.Some? && friend.Some? then Some(TypeError) else None)
        else
          err.None?
          && invitations == old(invitations) + [InvitationOf(invitationId, event.value, currentUser.value, friend.value, sentAt)]
          && savedInvitations == Some(invitations) && selectedEvent == ""
    {
      var event := Find((e: EventRef) => e.id == eventId, Events);
      var friend := Find((f: Person) => f.id == friendId, friends);
      if event.None? || friend.None? {
        return None;
      }
      if currentUser.None? {
        return Some(TypeError);
      }
      var invitation := InvitationOf(invitationId, event.value, currentUser.value, friend.value, sentAt);
      var updatedInvitations := invitations + [invitation];
      invitations := updatedInvitations;
      savedInvitations := Some(updatedInvitations);
      selectedEvent := "";
      err := None;
    }

    /** `respondToInvitation`: the invitations with the id take the response
        and are saved; an acceptance then navigates to the events view, or
        throws when no invitation had the id (its title is read from
        `undefined`). */
    method RespondToInvitation(invitationId: int, response: string)
      returns (navigateTo: Option<string>, err: Option<JsError>)
      modifies this`invitations, this`savedInvitations
      ensures invitations == RespondIn(old(invitations), invitationId, response)
      ensures savedInvitations == Some(invitations)
      ensures var found := Find((inv: Invitation) => inv.id == invitationId, old(invitations));
        if response != Accepted then navigateTo.None? && err.None?
        else if found.None? then navigateTo.None? && err == Some(TypeError)
        else navigateTo == Some("events") && err.None?
    {
      var updatedInvitations := RespondIn(invitations, invitationId, response);
      var invitation := Find((inv: Invitation) => inv.id == invitationId, invitations);
      invitations := updatedInvitations;
      savedInvitations := Some(updatedInvitations);
      navigateTo, err := None, None;
      if response == Accepted {
        if invitation.None? {
          err := Some(TypeError);
        } else {
          navigateTo := Some("events");
        }
      }
    }
  }
}
