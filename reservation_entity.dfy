/** The Owner service's reservation entity as a mutable object: its field
    defaults, its list of group members with their back-references, and
    its audit-time callbacks. */
module Entities {
  import opened Common
  import opened Domain

  /** The list without the first occurrence of `x` (`List.remove(Object)`);
      group members have no `equals` of their own, so occurrence means the
      same object. */
  function RemoveFirst<T(==)>(s: seq<T>, x: T): (r: seq<T>)
    decreases |s|
  {
    if s == [] then []
    else if s[0] == x then s[1..]
    else [s[0]] + RemoveFirst(s[1..], x)
  }

  /** Removing a member that is listed drops exactly one occurrence of it and
      keeps the rest in order; removing one that is not listed changes
      nothing. */
  lemma {:induction false} RemoveFirstEffect<T>(s: seq<T>, x: T)
    ensures x in s ==> |RemoveFirst(s, x)| == |s| - 1 && multiset(RemoveFirst(s, x)) == multiset(s) - multiset{x}
    ensures x !in s ==> RemoveFirst(s, x) == s
    decreases |s|
  {
    if s != [] && s[0] != x {
      RemoveFirstEffect(s[1..], x);
      assert s == [s[0]] + s[1..];
    } else if s != [] {
      assert s == [s[0]] + s[1..];
    }
  }

  /** The members before the first occurrence keep their places, and those
      after it move up by one. */
  lemma {:induction false} RemoveFirstShifts<T>(s: seq<T>, x: T, i: int)
    requires 0 <= i < |s| && s[i] == x && x !in s[..i]
    ensures RemoveFirst(s, x) == s[..i] + s[i + 1..]
    decreases i
  {
    if i > 0 {
      assert s[0] != x by { assert s[0] == s[..i][0]; }
      assert x !in s[1..][..i - 1] by { assert s[1..][..i - 1] == s[..i][1..]; }
      RemoveFirstShifts(s[1..], x, i - 1);
      assert s[..i] == [s[0]] + s[1..][..i - 1];
    }
  }

  /** Removing a member just added to a list that did not hold it gives the
      list back. */
  lemma {:induction false} RemoveAfterAdd<T>(s: seq<T>, x: T)
    requires x !in s
    ensures RemoveFirst(s + [x], x) == s
  {
    assert (s + [x])[..|s|] == s;
    RemoveFirstShifts(s + [x], x, |s|);
    assert (s + [x])[|s| + 1..] == [];
  }

  class GroupMemberEntity {
    var reservation: ReservationEntity?
    var guestName: string
    var guestEmail: string
    var qrCode: Option<string>
    var hasCheckedIn: bool

    /** A guest of a group, not yet attached to a reservation. */
    constructor(guestName: string, guestEmail: string)
      ensures this.guestName == guestName && this.guestEmail == guestEmail
      ensures reservation == null && qrCode == None && !hasCheckedIn
    {
      this.guestName := guestName;
      this.guestEmail := guestEmail;
      reservation := null;
      qrCode := None;
      hasCheckedIn := false;
    }
  }

  class ReservationEntity {
    var id: Option<int>
    var customerId: Option<int>
    var restaurantId: Option<int>
    var tableId: Option<int>
    var reservationDateTime: Option<int>
    var durationMinutes: int
    var numberOfGuests: int
    var status: ReservationStatus
    var isGroupReservation: bool
    var phoneNumber: Option<string>
    var qrCode: Option<string>
    var cancellationFee: int   // cents
    var checkedInAt: Option<int>
    var createdAt: Option<int>
    var updatedAt: Option<int>
    var groupMembers: seq<GroupMemberEntity>

    /** The field defaults every new reservation starts from. */
    ghost predicate HasDefaults()
      reads this
    {
      durationMinutes == DefaultDurationMinutes && status == Pending && !isGroupReservation
      && cancellationFee == 0 && groupMembers == []
      && id == None && tableId == None && phoneNumber == None && qrCode == None && checkedInAt == None
    }

    /** The no-argument constructor: defaults only. */
    constructor()
      ensures HasDefaults()
      ensures customerId == None && restaurantId == None && reservationDateTime == None && numberOfGuests == 0
      ensures createdAt == None && updatedAt == None
    {
      id, customerId, restaurantId, tableId, reservationDateTime := None, None, None, None, None;
      durationMinutes := DefaultDurationMinutes;
      numberOfGuests := 0;
      status := Pending;
      isGroupReservation := false;
      phoneNumber, qrCode := None, None;
      cancellationFee := 0;
      checkedInAt, createdAt, updatedAt := None, None, None;
      groupMembers := [];
    }

    /** The constructor with the essential fields, stamped with `now`. */
    constructor WithDetails(customerId: int, restaurantId: int, reservationDateTime: int, numberOfGuests: int, now: int)
      ensures HasDefaults()
      ensures this.customerId == Some(customerId) && this.restaurantId == Some(restaurantId)
      ensures this.reservationDateTime == Some(reservationDateTime) && this.numberOfGuests == numberOfGuests
      ensures createdAt == Some(now) && updatedAt == Some(now)
    {
      id, tableId := None, None;
      this.customerId := Some(customerId);
      this.restaurantId := Some(restaurantId);
      this.reservationDateTime := Some(reservationDateTime);
      durationMinutes := DefaultDurationMinutes;
      this.numberOfGuests := numberOfGuests;
      status := Pending;
      isGroupReservation := false;
      phoneNumber, qrCode := None, None;
      cancellationFee := 0;
      checkedInAt := None;
      createdAt := Some(now);
      updatedAt := Some(now);
      groupMembers := [];
    }

    /** Appends the member and points it back at this reservation. */
    method AddGroupMember(member: GroupMemberEntity)
      modifies this, member
      ensures groupMembers == old(groupMembers) + [member]
      ensures member.reservation == this
      ensures member.guestName == old(member.guestName) && member.guestEmail == old(member.guestEmail)
      ensures member.qrCode == old(member.qrCode) && member.hasCheckedIn == old(member.hasCheckedIn)
      ensures id == old(id) && customerId == old(customerId) && restaurantId == old(restaurantId)
      ensures tableId == old(tableId) && reservationDateTime == old(reservationDateTime)
      ensures durationMinutes == old(durationMinutes) && numberOfGuests == old(numberOfGuests)
      ensures status == old(status) && isGroupReservation == old(isGroupReservation)
      ensures phoneNumber == old(phoneNumber) && qrCode == old(qrCode)
      ensures cancellationFee == old(cancellationFee) && checkedInAt == old(checkedInAt)
      ensures createdAt == old(createdAt) && updatedAt == old(updatedAt)
    {
      groupMembers := groupMembers + [member];
      member.reservation := this;
    }

    /** Drops the member's first occurrence, if any, and detaches it. */
    method RemoveGroupMember(member: GroupMemberEntity)
      modifies this, member
      ensures groupMembers == RemoveFirst(old(groupMembers), member)
      ensures member.reservation == null
      ensures member.guestName == old(member.guestName) && member.guestEmail == old(member.guestEmail)
      ensures member.qrCode == old(member.qrCode) && member.hasCheckedIn == old(member.hasCheckedIn)
      ensures id == old(id) && customerId == old(customerId) && restaurantId == old(restaurantId)
      ensures tableId == old(tableId) && reservationDateTime == old(reservationDateTime)
      ensures durationMinutes == old(durationMinutes) && numberOfGuests == old(numberOfGuests)
      ensures status == old(status) && isGroupReservation == old(isGroupReservation)
      ensures phoneNumber == old(phoneNumber) && qrCode == old(qrCode)
      ensures cancellationFee == old(cancellationFee) && checkedInAt == old(checkedInAt)
      ensures createdAt == old(createdAt) && updatedAt == old(updatedAt)
    {
      groupMembers := RemoveFirst(groupMembers, member);
      member.reservation := null;
    }

    /** Before the first save: both audit times are `now`. */
    method OnCreate(now: int)
      modifies this
      ensures createdAt == Some(now) && updatedAt == Some(now)
      ensures id == old(id) && customerId == old(customerId) && restaurantId == old(restaurantId)
      ensures tableId == old(tableId) && reservationDateTime == old(reservationDateTime)
      ensures durationMinutes == old(durationMinutes) && numberOfGuests == old(numberOfGuests)
      ensures status == old(status) && isGroupReservation == old(isGroupReservation)
      ensures phoneNumber == old(phoneNumber) && qrCode == old(qrCode)
      ensures cancellationFee == old(cancellationFee) && checkedInAt == old(checkedInAt)
      ensures groupMembers == old(groupMembers)
    {
      createdAt := Some(now);
      updatedAt := Some(now);
    }

    /** Before every later save: only the update time changes. */
    method OnUpdate(now: int)
      modifies this
      ensures updatedAt == Some(now)
      ensures createdAt == old(createdAt) && id == old(id) && customerId == old(customerId)
      ensures restaurantId == old(restaurantId) && tableId == old(tableId)
      ensures reservationDateTime == old(reservationDateTime) && durationMinutes == old(durationMinutes)
      ensures numberOfGuests == old(numberOfGuests) && status == old(status)
      ensures isGroupReservation == old(isGroupReservation) && phoneNumber == old(phoneNumber)
      ensures qrCode == old(qrCode) && cancellationFee == old(cancellationFee) && checkedInAt == old(checkedInAt)
      ensures groupMembers == old(groupMembers)
    {
      updatedAt := Some(now);
    }
  }
}
