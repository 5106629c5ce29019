/**
 * A physical seat of a screen (domain/screening/entity/Seat.java): its
 * position, type and the base status an administrator sets.
 */
module Seats {
  import opened Common
  import opened Text

  datatype SeatType = NORMAL | PREMIUM | VIP | COUPLE | WHEELCHAIR

  datatype SeatBaseStatus = AVAILABLE | BLOCKED | DISABLED

  /** The seat columns other entities read through their `seat` association. */
  datatype SeatInfo = SeatInfo(id: nat, rowLabel: string, seatNo: int, seatType: SeatType)

  /** `rowLabel + seatNo`, with no separator. */
  function DisplayName(rowLabel: string, seatNo: int): string
  {
    rowLabel + IntToString(seatNo)
  }

  /** Without a separator the name is only unambiguous when row labels carry no digits. */
  lemma DisplayNameInjective(row1: string, no1: nat, row2: string, no2: nat)
    requires forall i :: 0 <= i < |row1| ==> !IsDigit(row1[i])
    requires forall i :: 0 <= i < |row2| ==> !IsDigit(row2[i])
    ensures DisplayName(row1, no1) == DisplayName(row2, no2) <==> row1 == row2 && no1 == no2
  {
    if DisplayName(row1, no1) == DisplayName(row2, no2) {
      var d1, d2 := NatToString(no1), NatToString(no2);
      assert d1[0] in DigitChars && d2[0] in DigitChars;
      SplitAtFirstIn(row1, d1, row2, d2, DigitChars);
      NatToStringInjective(no1, no2);
    }
  }

  /** Row "A1" seat 1 and row "A" seat 11 share the name "A11". */
  lemma DisplayNameAmbiguousWithDigitRows()
    ensures DisplayName("A1", 1) == DisplayName("A", 11)
  {
    assert NatToString(11) == NatToString(1) + [DigitChar(1)];
  }

  class Seat {
    var id: nat
    var screenId: nat
    var rowLabel: string
    var seatNo: int
    var seatType: SeatType
    var baseStatus: SeatBaseStatus

    /** A new seat is in service; `id` stands for the key the database assigns. */
    constructor (id: nat, screenId: nat, rowLabel: string, seatNo: int, seatType: SeatType)
      ensures this.id == id && this.screenId == screenId && this.rowLabel == rowLabel
      ensures this.seatNo == seatNo && this.seatType == seatType
      ensures baseStatus == SeatBaseStatus.AVAILABLE
    {
      this.id := id;
      this.screenId := screenId;
      this.rowLabel := rowLabel;
      this.seatNo := seatNo;
      this.seatType := seatType;
      this.baseStatus := SeatBaseStatus.AVAILABLE;
    }

    function Info(): SeatInfo
      reads this
    {
      SeatInfo(id, rowLabel, seatNo, seatType)
    }

    /** An administrator takes the seat out of sale; repeating it changes nothing more. */
    method Block()
      modifies this
      ensures baseStatus == SeatBaseStatus.BLOCKED && !IsAvailable()
      ensures Info() == old(Info()) && screenId == old(screenId)
    {
      baseStatus := SeatBaseStatus.BLOCKED;
    }

    method Disable()
      modifies this
      ensures baseStatus == SeatBaseStatus.DISABLED && !IsAvailable()
      ensures Info() == old(Info()) && screenId == old(screenId)
    {
      baseStatus := SeatBaseStatus.DISABLED;
    }

    method Enable()
      modifies this
      ensures baseStatus == SeatBaseStatus.AVAILABLE && IsAvailable()
      ensures Info() == old(Info()) && screenId == old(screenId)
    {
      baseStatus := SeatBaseStatus.AVAILABLE;
    }

    predicate IsAvailable()
      reads this
    {
      baseStatus == SeatBaseStatus.AVAILABLE
    }

    /** The display name starts with the row label and ends with the seat number's digits. */
    function GetDisplayName(): (name: string)
      reads this
      ensures StartsWith(name, rowLabel)
      ensures seatNo >= 0 ==> AllDigits(name[|rowLabel|..]) && DigitsValue(name[|rowLabel|..]) == seatNo
    {
      var name := DisplayName(rowLabel, seatNo);
      assert name[..|rowLabel|] == rowLabel;
      assert seatNo >= 0 ==> name[|rowLabel|..] == NatToString(seatNo);
      NatToStringRoundTrip(if seatNo >= 0 then seatNo else 0);
      name
    }

    /** A null type leaves the seat as it was; otherwise the type is replaced. */
    method UpdateInfo(newType: Option<SeatType>)
      modifies this
      ensures seatType == (if newType.Some? then newType.value else old(seatType))
      ensures id == old(id) && rowLabel == old(rowLabel) && seatNo == old(seatNo)
      ensures baseStatus == old(baseStatus) && screenId == old(screenId)
    {
      if newType.Some? {
        seatType := newType.value;
      }
    }
  }
}
