/** The booking screen of src/App.jsx: one destination chosen from a list, no busy flag,
    and a "Register" button in the header that opens the registration screen directly. */
module SiteApp {
  import opened Wrappers
  import opened Screens
  import VS = VehicleSelection
  import SheetTime
  import BookingDate
  import Registration

  /** `formData`. */
  datatype Draft = Draft(
    destination: string,
    arrivalDate: string,
    returnDate: string,
    arrivalTime: string,
    returnTime: string,
    vehicles: VS.Selection)

  const EmptyDraft := Draft("", "", "", "", "", [])

  datatype Field = Destination | ArrivalDate | ReturnDate | ArrivalTime | ReturnTime

  function Get(d: Draft, f: Field): string
  {
    match f
    case Destination => d.destination
    case ArrivalDate => d.arrivalDate
    case ReturnDate => d.returnDate
    case ArrivalTime => d.arrivalTime
    case ReturnTime => d.returnTime
  }

  /** `handleFormChange(field, value)`: `{ ...prev, [field]: value }`. */
  function WithField(d: Draft, f: Field, v: string): (r: Draft)
    ensures Get(r, f) == v
    ensures forall g :: g != f ==> Get(r, g) == Get(d, g)
    ensures r.vehicles == d.vehicles
  {
    match f
    case Destination => d.(destination := v)
    case ArrivalDate => d.(arrivalDate := v)
    case ReturnDate => d.(returnDate := v)
    case ArrivalTime => d.(arrivalTime := v)
    case ReturnTime => d.(returnTime := v)
  }

  /** `isFormValid`: every field filled in and at least one vehicle chosen. */
  predicate Complete(d: Draft)
  {
    d.destination != "" && d.arrivalDate != "" && d.returnDate != "" &&
    d.arrivalTime != "" && d.returnTime != "" &&
    VS.Total(d.vehicles) > 0
  }

  /** What `isFormValid` asks for, read through the form's fields: a complete draft has
      every field filled in and some vehicle entry, and on a sparse vehicle map that is
      also enough. */
  lemma CompleteMeans(d: Draft)
    ensures Complete(d) ==> (forall f :: Get(d, f) != "") && d.vehicles != []
    ensures VS.Sparse(d.vehicles) && (forall f :: Get(d, f) != "") && d.vehicles != [] ==> Complete(d)
  {
    assert Get(d, Destination) == d.destination;
    assert Get(d, ArrivalDate) == d.arrivalDate && Get(d, ReturnDate) == d.returnDate;
    assert Get(d, ArrivalTime) == d.arrivalTime && Get(d, ReturnTime) == d.returnTime;
  }

  predicate Ready(d: Draft)
  {
    Complete(d) && !BookingDate.ArrivalAfterReturn(d.arrivalDate, d.returnDate)
  }

  datatype Booking = Booking(
    name: string,
    email: string,
    phone: string,
    destination: string,
    arrivalDate: BookingDate.SheetDate,
    returnDate: BookingDate.SheetDate,
    arrivalTime: string,
    returnTime: string,
    vehicles: string,
    totalVehicles: int)

  /** The record `handleBookRide` and `handleRegister` post. */
  function BookingRecord(p: Registration.Profile, d: Draft): (b: Booking)
    ensures b.totalVehicles == VS.Sum(d.vehicles)
    ensures VS.Sparse(d.vehicles) ==> (b.totalVehicles == 0 <==> b.vehicles == "")
    ensures Complete(d) ==> b.totalVehicles > 0 && b.vehicles != ""
    ensures b.arrivalTime == "" <==> d.arrivalTime == ""
    ensures b.returnTime == "" <==> d.returnTime == ""
  {
    Booking(p.name, p.email, p.phone, d.destination,
            BookingDate.FormatDate(d.arrivalDate), BookingDate.FormatDate(d.returnDate),
            SheetTime.FormatTime(d.arrivalTime), SheetTime.FormatTime(d.returnTime),
            VS.Summary(d.vehicles), VS.Total(d.vehicles))
  }

  class Session {
    var isRegistered: bool
    var showRegister: bool
    var showBookingConfirmation: bool
    var formData: Draft
    var registerData: Registration.Profile

    /** Between handlers: the vehicle map is sparse and at most one overlay is open. Unlike
        trido/src/App.jsx, the registration screen carries no promise about the draft. */
    ghost predicate Valid()
      reads this
    {
      VS.Sparse(formData.vehicles) && !(showRegister && showBookingConfirmation)
    }

    function Showing(): Screen
      reads this
    {
      ScreenFor(showBookingConfirmation, showRegister)
    }

    constructor ()
      ensures Valid() && Showing() == BookingForm
      ensures !isRegistered && formData == EmptyDraft && registerData == Registration.Blank
    {
      isRegistered, showRegister, showBookingConfirmation := false, false, false;
      formData := EmptyDraft;
      registerData := Registration.Blank;
    }

    method HandleFormChange(field: Field, value: string)
      requires Valid() && Showing() == BookingForm
      modifies this`formData
      ensures Valid() && Showing() == BookingForm
      ensures formData == WithField(old(formData), field, value)
    {
      formData := WithField(formData, field, value);
    }

    method HandleVehicleCountChange(vehicleName: string, change: int)
      requires Valid() && Showing() == BookingForm
      modifies this`formData
      ensures Valid() && Showing() == BookingForm
      ensures formData == old(formData).(vehicles := VS.Adjust(old(formData.vehicles), vehicleName, change))
    {
      var currentCount := VS.Count(formData.vehicles, vehicleName);
      var newCount := VS.Max(0, currentCount + change);
      var updatedVehicles := formData.vehicles;
      if newCount == 0 {
        updatedVehicles := VS.Delete(updatedVehicles, vehicleName);
      } else {
        updatedVehicles := VS.Put(updatedVehicles, vehicleName, newCount);
      }
      formData := formData.(vehicles := updatedVehicles);
    }

    method HandleRegisterChange(field: Registration.Field, value: string)
      requires Valid() && Showing() == RegistrationForm
      modifies this`registerData
      ensures Valid() && Showing() == RegistrationForm
      ensures registerData == Registration.WithField(old(registerData), field, value)
    {
      registerData := Registration.WithField(registerData, field, value);
    }

    /** The header's "Register" button: opens the registration screen with no check. */
    method HeaderRegister()
      requires Valid() && Showing() == BookingForm
      modifies this`showRegister
      ensures Valid() && Showing() == RegistrationForm
      ensures showRegister
    {
      showRegister := true;
    }

    /** "Book the Ride". */
    method HandleBookRide(networkOk: bool) returns (outcome: Outcome, posted: Option<Booking>)
      requires Valid() && Showing() == BookingForm
      modifies this`showRegister, this`showBookingConfirmation
      ensures Valid()
      ensures !Complete(formData) ==> outcome == IncompleteForm
      ensures Complete(formData) && BookingDate.ArrivalAfterReturn(formData.arrivalDate, formData.returnDate) ==>
                outcome == InvalidDateRange
      ensures !Ready(formData) ==> posted == None && unchanged(this)
      ensures Ready(formData) && !isRegistered ==>
                outcome == RegistrationOpened && posted == None &&
                showRegister && !showBookingConfirmation
      ensures Ready(formData) && isRegistered ==>
                posted == Some(BookingRecord(registerData, formData)) &&
                showRegister == old(showRegister) &&
                showBookingConfirmation == networkOk &&
                outcome == (if networkOk then Confirmed else BookingSaveFailed)
    {
      var d := formData;
      if !Complete(d) {
        return IncompleteForm, None;
      }
      if BookingDate.ArrivalAfterReturn(d.arrivalDate, d.returnDate) {
        return InvalidDateRange, None;
      }
      if isRegistered {
        posted := Some(BookingRecord(registerData, d));
        if networkOk {
          showBookingConfirmation := true;
          outcome := Confirmed;
        } else {
          outcome := BookingSaveFailed;
        }
      } else {
        showRegister := true;
        outcome, posted := RegistrationOpened, None;
      }
    }

    /** "Register & Book Ride": checks the profile only, then posts whatever the draft holds. */
    method HandleRegister(networkOk: bool) returns (outcome: Outcome, posted: Option<Booking>)
      requires Valid() && Showing() == RegistrationForm
      modifies this`isRegistered, this`showRegister, this`showBookingConfirmation
      ensures Valid()
      ensures !Registration.Complete(registerData) ==>
                outcome == IncompleteRegistration && posted == None && unchanged(this)
      ensures Registration.Complete(registerData) ==> posted == Some(BookingRecord(registerData, formData))
      ensures Registration.Complete(registerData) && networkOk ==>
                outcome == Confirmed && isRegistered && !showRegister && showBookingConfirmation
      ensures Registration.Complete(registerData) && !networkOk ==>
                outcome == RegistrationSaveFailed && unchanged(this)
    {
      var p := registerData;
      if p.name == "" || p.email == "" || p.phone == "" {
        return IncompleteRegistration, None;
      }
      posted := Some(BookingRecord(p, formData));
      if networkOk {
        isRegistered := true;
        showRegister := false;
        showBookingConfirmation := true;
        outcome := Confirmed;
      } else {
        outcome := RegistrationSaveFailed;
      }
    }

    method Back()
      requires Valid() && Showing() == RegistrationForm
      modifies this`showRegister
      ensures Valid() && Showing() == BookingForm
      ensures !showRegister
    {
      showRegister := false;
    }

    method BookAnotherRide()
      requires Valid() && Showing() == Confirmation
      modifies this`showBookingConfirmation, this`formData
      ensures Valid() && Showing() == BookingForm
      ensures !showBookingConfirmation && formData == EmptyDraft
    {
      showBookingConfirmation := false;
      formData := EmptyDraft;
    }
  }

  /** The header's "Register" button reaches a post with an empty draft: a visitor who
      registers before filling in the form submits a booking with no destination, no dates
      or times and no vehicles. */
  method RegisterBeforeBooking() returns (outcome: Outcome, posted: Option<Booking>)
    ensures outcome == Confirmed && posted.Some?
    ensures posted.value.name == "Rider" && posted.value.destination == ""
    ensures posted.value.arrivalDate == BookingDate.Blank && posted.value.arrivalTime == ""
    ensures posted.value.vehicles == "" && posted.value.totalVehicles == 0
  {
    var s := new Session();
    s.HeaderRegister();
    s.HandleRegisterChange(Registration.Name, "Rider");
    s.HandleRegisterChange(Registration.Email, "rider@example.com");
    s.HandleRegisterChange(Registration.Phone, "9999999999");
    outcome, posted := s.HandleRegister(true);
  }
}
