/** A parking hold and its state machine. */
module HoldDomain {
  import opened Wrappers

  datatype HoldStatus = Active | Confirmed | Released | Expired

  datatype HoldError = ErrHoldExpired | ErrHoldNotActive | ErrBookingIDRequired | ErrReleaseReasonRequired

  /** A hold as a value, the way the repository returns and takes it. */
  datatype HoldValue = HoldValue(
    id: string,
    quoteId: string,
    customerId: string,
    parkingSpaceId: string,
    expiresAt: Time,
    status: HoldStatus,
    bookingId: string,
    releaseReason: string)

  /** Only an ACTIVE hold expires by itself, from the very instant of its expiry on. */
  function EffectiveStatus(hold: HoldValue, now: Time): (status: HoldStatus)
    ensures status.Expired? <==> hold.status.Expired? || (hold.status.Active? && hold.expiresAt <= now)
    ensures status.Active? <==> hold.status.Active? && now < hold.expiresAt
    ensures (status.Confirmed? <==> hold.status.Confirmed?) && (status.Released? <==> hold.status.Released?)
  {
    if hold.status.Active? && now >= hold.expiresAt then Expired else hold.status
  }

  /** A command is a confirmation with a booking id or a release with a reason. */
  datatype Kind = Confirm | Release

  datatype Outcome = Outcome(hold: HoldValue, error: Option<HoldError>)

  function Perform(hold: HoldValue, kind: Kind, now: Time, argument: string): Outcome {
    if argument == "" then
      Outcome(hold, Some(if kind.Confirm? then ErrBookingIDRequired else ErrReleaseReasonRequired))
    else if EffectiveStatus(hold, now).Expired? then
      Outcome(hold.(status := Expired), Some(ErrHoldExpired))
    else if !hold.status.Active? then
      Outcome(hold, Some(ErrHoldNotActive))
    else
      match kind
      case Confirm => Outcome(hold.(status := Confirmed, bookingId := argument), None)
      case Release => Outcome(hold.(status := Released, releaseReason := argument), None)
  }

  /** The Go struct, whose methods update it in place. */
  class Hold {
    const id: string
    const quoteId: string
    const customerId: string
    const parkingSpaceId: string
    const expiresAt: Time
    var status: HoldStatus
    var bookingId: string
    var releaseReason: string

    constructor (value: HoldValue)
      ensures Value() == value
    {
      id, quoteId, customerId, parkingSpaceId := value.id, value.quoteId, value.customerId, value.parkingSpaceId;
      expiresAt := value.expiresAt;
      status, bookingId, releaseReason := value.status, value.bookingId, value.releaseReason;
    }

    function Value(): HoldValue
      reads this
    {
      HoldValue(id, quoteId, customerId, parkingSpaceId, expiresAt, status, bookingId, releaseReason)
    }

    method Confirm(now: Time, bookingID: string) returns (error: Option<HoldError>)
      modifies this
      ensures Outcome(Value(), error) == Perform(old(Value()), Kind.Confirm, now, bookingID)
      ensures error.None? <==> bookingID != "" && old(status).Active? && now < expiresAt
      ensures error.None? ==> status.Confirmed? && bookingId == bookingID && releaseReason == old(releaseReason)
      ensures error == Some(ErrBookingIDRequired) <==> bookingID == ""
      ensures error == Some(ErrHoldExpired) <==>
                bookingID != "" && (old(status).Expired? || (old(status).Active? && expiresAt <= now))
      ensures error == Some(ErrHoldNotActive) <==> bookingID != "" && (old(status).Confirmed? || old(status).Released?)
      ensures error.Some? ==> status == if error.value.ErrHoldExpired? then Expired else old(status)
      ensures error.Some? ==> bookingId == old(bookingId) && releaseReason == old(releaseReason)
    {
      if bookingID == "" {
        return Some(ErrBookingIDRequired);
      }
      if EffectiveStatus(Value(), now).Expired? {
        status := Expired;
        return Some(ErrHoldExpired);
      }
      if !status.Active? {
        return Some(ErrHoldNotActive);
      }
      status := Confirmed;
      bookingId := bookingID;
      error := None;
    }

    method Release(now: Time, reason: string) returns (error: Option<HoldError>)
      modifies this
      ensures Outcome(Value(), error) == Perform(old(Value()), Kind.Release, now, reason)
      ensures error.None? <==> reason != "" && old(status).Active? && now < expiresAt
      ensures error.None? ==> status.Released? && releaseReason == reason && bookingId == old(bookingId)
      ensures error == Some(ErrReleaseReasonRequired) <==> reason == ""
      ensures error == Some(ErrHoldExpired) <==>
                reason != "" && (old(status).Expired? || (old(status).Active? && expiresAt <= now))
      ensures error == Some(ErrHoldNotActive) <==> reason != "" && (old(status).Confirmed? || old(status).Released?)
      ensures error.Some? ==> status == if error.value.ErrHoldExpired? then Expired else old(status)
      ensures error.Some? ==> bookingId == old(bookingId) && releaseReason == old(releaseReason)
    {
      if reason == "" {
        return Some(ErrReleaseReasonRequired);
      }
      if EffectiveStatus(Value(), now).Expired? {
        status := Expired;
        return Some(ErrHoldExpired);
      }
      if !status.Active? {
        return Some(ErrHoldNotActive);
      }
      status := Released;
      releaseReason := reason;
      error := None;
    }
  }

  // ---- Lazy expiry ----

  /** The hold with the expiry that is due at `t` carried out. */
  function Settled(hold: HoldValue, t: Time): HoldValue {
    hold.(status := EffectiveStatus(hold, t))
  }

  /** Two holds that agree once settled at `t` cannot be told apart at `t` or later. */
  lemma SettledAgree(h: HoldValue, g: HoldValue, t: Time, now: Time)
    requires t <= now && Settled(h, t) == Settled(g, t)
    ensures Settled(h, now) == Settled(g, now)
    ensures EffectiveStatus(h, now) == EffectiveStatus(g, now)
  {
    assert h.expiresAt == Settled(h, t).expiresAt;
    assert g.expiresAt == Settled(g, t).expiresAt;
  }

  /** A command does not notice whether a due expiry has been carried out, and neither does its result. */
  lemma PerformSettled(h: HoldValue, g: HoldValue, kind: Kind, now: Time, argument: string)
    requires Settled(h, now) == Settled(g, now)
    ensures Perform(h, kind, now, argument).error == Perform(g, kind, now, argument).error
    ensures Settled(Perform(h, kind, now, argument).hold, now) == Settled(Perform(g, kind, now, argument).hold, now)
    ensures Perform(h, kind, now, argument).error.Some? ==>
              Settled(Perform(h, kind, now, argument).hold, now) == Settled(h, now)
  {
    assert h.expiresAt == Settled(h, now).expiresAt && g.expiresAt == Settled(g, now).expiresAt;
    assert EffectiveStatus(h, now) == EffectiveStatus(g, now);
    assert h.(status := Active) == Settled(h, now).(status := Active);
    assert g.(status := Active) == Settled(g, now).(status := Active);
  }
}
