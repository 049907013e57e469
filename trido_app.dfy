/** The booking screen of trido/src/App.jsx: a pick-up location chosen from a list, a
    free-text trip destination, and a busy flag while a booking is being posted. */
module TridoApp {
  import opened Wrappers
  import opened Screens
  import VS = VehicleSelection
  import SheetTime
  import BookingDate
  import Registration
  import Decimal

  /** `formData`. */
  datatype Draft = Draft(
    pickupLocation: string,
    tripDestination: string,
    arrivalDate: string,
    returnDate: string,
    arrivalTime: string,
    returnTime: string,
    vehicles: VS.Selection)

  /** The draft as the screen mounts it, and as "Book Another Ride" restores it. */
  const EmptyDraft := Draft("", "", "", "", "", "", [])

  /** The fields the form's inputs pass to `handleFormChange`. */
  datatype Field = PickupLocation | TripDestination | ArrivalDate | ReturnDate | ArrivalTime | ReturnTime

  function Get(d: Draft, f: Field): string
  {
    match f
    case PickupLocation => d.pickupLocation
    case TripDestination => d.tripDestination
    case ArrivalDate => d.arrivalDate
    case ReturnDate => d.returnDate
    case ArrivalTime => d.arrivalTime
    case ReturnTime => d.returnTime
  }

  /** `handleFormChange(field, value)`: `{ ...prev, [field]: value }`. */
  function WithField(d: Draft, f: Field, v: string): (r: Draft)
    ensures Get(r, f) == v
    ensures forall g :: g != f ==> Get(r, g) == Get(d, g)
    ensures r.vehicles == d.vehicles
  {
    match f
    case PickupLocation => d.(pickupLocation := v)
    case TripDestination => d.(tripDestination := v)
    case ArrivalDate => d.(arrivalDate := v)
    case ReturnDate => d.(returnDate := v)
    case ArrivalTime => d.(arrivalTime := v)
    case ReturnTime => d.(returnTime := v)
  }

  /** `isFormValid`: every field filled in and at least one vehicle chosen. */
  predicate Complete(d: Draft)
  {
    d.pickupLocation != "" && d.tripDestination != "" &&
    d.arrivalDate != "" && d.returnDate != "" &&
    d.arrivalTime != "" && d.returnTime != "" &&
    VS.Total(d.vehicles) > 0
  }

  /** What `isFormValid` asks for, read through the form's fields: a complete draft has
      every field filled in and some vehicle entry, and on a sparse vehicle map that is
      also enough. */
  lemma CompleteMeans(d: Draft)
    ensures Complete(d) ==> (forall f :: Get(d, f) != "") && d.vehicles != []
    ensures VS.Sparse(d.vehicles) && (forall f :: Get(d, f) != "") && d.vehicles != [] ==> Complete(d)
  {
    assert Get(d, PickupLocation) == d.pickupLocation && Get(d, TripDestination) == d.tripDestination;
    assert Get(d, ArrivalDate) == d.arrivalDate && Get(d, ReturnDate) == d.returnDate;
    assert Get(d, ArrivalTime) == d.arrivalTime && Get(d, ReturnTime) == d.returnTime;
  }

  /** A draft that passes both checks of `handleBookRide`. */
  predicate Ready(d: Draft)
  {
    Complete(d) && !BookingDate.ArrivalAfterReturn(d.arrivalDate, d.returnDate)
  }

  /** The record posted to the spreadsheet. */
  datatype Booking = Booking(
    name: string,
    email: string,
    phone: string,
    pickupLocation: string,
    tripDestination: string,
    arrivalDate: BookingDate.SheetDate,
    returnDate: BookingDate.SheetDate,
    arrivalTime: string,
    returnTime: string,
    vehicles: string,
    totalVehicles: int)

  /** The record both `handleBookRide` and `handleRegister` post: the profile, the draft's
      fields, the dates and times as the sheet shows them, and the vehicle summary and total. */
  function BookingRecord(p: Registration.Profile, d: Draft): (b: Booking)
    ensures b.totalVehicles == VS.Sum(d.vehicles)
    ensures VS.Sparse(d.vehicles) ==> (b.totalVehicles == 0 <==> b.vehicles == "")
    ensures Complete(d) ==> b.totalVehicles > 0 && b.vehicles != ""
    ensures b.arrivalTime == "" <==> d.arrivalTime == ""
    ensures b.returnTime == "" <==> d.returnTime == ""
  {
    Booking(p.name, p.email, p.phone, d.pickupLocation, d.tripDestination,
            BookingDate.FormatDate(d.arrivalDate), BookingDate.FormatDate(d.returnDate),
            SheetTime.FormatTime(d.arrivalTime), SheetTime.FormatTime(d.returnTime),
            VS.Summary(d.vehicles), VS.Total(d.vehicles))
  }

  /** The state of one `App` instance. Handlers run to completion one at a time; the
      outcome of a post is the `networkOk` argument. */
  class Session {
    var isRegistered: bool
    var showRegister: bool
    var showBookingConfirmation: bool
    var isLoading: bool
    var formData: Draft
    var registerData: Registration.Profile

    /** Between handlers: the vehicle map is sparse, nothing is in flight, at most one
        overlay is open, and the registration screen is open only for a visitor who has not
        registered and whose draft passed both checks of `handleBookRide`. */
    ghost predicate Valid()
      reads this
    {
      VS.Sparse(formData.vehicles) &&
      !isLoading &&
      !(showRegister && showBookingConfirmation) &&
      (showRegister ==> Ready(formData) && !isRegistered)
    }

    function Showing(): Screen
      reads this
    {
      ScreenFor(showBookingConfirmation, showRegister)
    }

    constructor ()
      ensures Valid() && Showing() == BookingForm
      ensures !isRegistered && formData == EmptyDraft && registerData == Registration.Blank
    {
      isRegistered, showRegister, showBookingConfirmation, isLoading := false, false, false, false;
      formData := EmptyDraft;
      registerData := Registration.Blank;
    }

    /** A location button or a date, time or destination input of the booking form. */
    method HandleFormChange(field: Field, value: string)
      requires Valid() && Showing() == BookingForm
      modifies this`formData
      ensures Valid() && Showing() == BookingForm
      ensures formData == WithField(old(formData), field, value)
    {
      formData := WithField(formData, field, value);
    }

    /** The − and + buttons of a vehicle card: the draft's map is copied, and the entry
        deleted when the clamped count is zero or assigned otherwise. */
    method HandleVehicleCountChange(vehicleName: string, change: int)
      requires Valid() && Showing() == BookingForm
      modifies this`formData
      ensures Valid() && Showing() == BookingForm
      ensures formData == old(formData).(vehicles := VS.Adjust(old(formData.vehicles), vehicleName, change))
    {
      var currentCount := VS.Count(formData.vehicles, vehicleName);
      var newCount := VS.Max(0, currentCount + change);
      var updatedVehicles := formData.vehicles;
      if newCount == 0 {
        updatedVehicles := VS.Delete(updatedVehicles, vehicleName);
      } else {
        updatedVehicles := VS.Put(updatedVehicles, vehicleName, newCount);
      }
      formData := formData.(vehicles := updatedVehicles);
    }

    /** An input of the registration form. */
    method HandleRegisterChange(field: Registration.Field, value: string)
      requires Valid() && Showing() == RegistrationForm
      modifies this`registerData
      ensures Valid() && Showing() == RegistrationForm
      ensures registerData == Registration.WithField(old(registerData), field, value)
    {
      registerData := Registration.WithField(registerData, field, value);
    }

    /** "Book the Ride". */
    method HandleBookRide(networkOk: bool) returns (outcome: Outcome, posted: Option<Booking>)
      requires Valid() && Showing() == BookingForm
      modifies this`isLoading, this`showRegister, this`showBookingConfirmation
      ensures Valid()
      ensures !Complete(formData) ==> outcome == IncompleteForm
      ensures Complete(formData) && BookingDate.ArrivalAfterReturn(formData.arrivalDate, formData.returnDate) ==>
                outcome == InvalidDateRange
      ensures !Ready(formData) ==> posted == None && unchanged(this)
      ensures Ready(formData) && !isRegistered ==>
                outcome == RegistrationOpened && posted == None &&
                showRegister && !showBookingConfirmation
      ensures Ready(formData) && isRegistered ==>
                posted == Some(BookingRecord(registerData, formData)) &&
                showRegister == old(showRegister) &&
                showBookingConfirmation == networkOk &&
                outcome == (if networkOk then Confirmed else BookingSaveFailed)
    {
      var d := formData;
      if !Complete(d) {
        return IncompleteForm, None;
      }
      if BookingDate.ArrivalAfterReturn(d.arrivalDate, d.returnDate) {
        return InvalidDateRange, None;
      }
      if isRegistered {
        isLoading := true;
        posted := Some(BookingRecord(registerData, d));
        if networkOk {
          isLoading := false;
          showBookingConfirmation := true;
          outcome := Confirmed;
        } else {
          isLoading := false;
          outcome := BookingSaveFailed;
        }
      } else {
        showRegister := true;
        outcome, posted := RegistrationOpened, None;
      }
    }

    /** "Register & Book Ride". */
    method HandleRegister(networkOk: bool) returns (outcome: Outcome, posted: Option<Booking>)
      requires Valid() && Showing() == RegistrationForm
      modifies this`isLoading, this`isRegistered, this`showRegister, this`showBookingConfirmation
      ensures Valid()
      ensures !Registration.Complete(registerData) ==>
                outcome == IncompleteRegistration && posted == None && unchanged(this)
      ensures Registration.Complete(registerData) ==> posted == Some(BookingRecord(registerData, formData))
      ensures Registration.Complete(registerData) && networkOk ==>
                outcome == Confirmed && isRegistered && !showRegister && showBookingConfirmation
      ensures Registration.Complete(registerData) && !networkOk ==>
                outcome == RegistrationSaveFailed && !isLoading &&
                isRegistered == old(isRegistered) && showRegister == old(showRegister) &&
                showBookingConfirmation == old(showBookingConfirmation)
    {
      var p := registerData;
      if p.name == "" || p.email == "" || p.phone == "" {
        return IncompleteRegistration, None;
      }
      assert Registration.Complete(p);
      isLoading := true;
      posted := Some(BookingRecord(p, formData));
      if networkOk {
        isLoading := false;
        isRegistered := true;
        showRegister := false;
        showBookingConfirmation := true;
        outcome := Confirmed;
      } else {
        isLoading := false;
        outcome := RegistrationSaveFailed;
      }
    }

    /** "Back" on the registration screen. */
    method Back()
      requires Valid() && Showing() == RegistrationForm
      modifies this`showRegister
      ensures Valid() && Showing() == BookingForm
      ensures !showRegister
    {
      showRegister := false;
    }

    /** "Book Another Ride" on the confirmation screen. */
    method BookAnotherRide()
      requires Valid() && Showing() == Confirmation
      modifies this`showBookingConfirmation, this`formData
      ensures Valid() && Showing() == BookingForm
      ensures !showBookingConfirmation && formData == EmptyDraft
    {
      showBookingConfirmation := false;
      formData := EmptyDraft;
    }
  }

  // ---- a worked session ----

  const FirstDraft := Draft("Roorkee", "Mussoorie", "2025-06-05", "2025-06-10", "12:00", "13:30",
                            [VS.Entry("Activa 125", 2), VS.Entry("RE Classic 350", 1)])
  const SecondDraft := Draft("Haridwar", "Rishikesh", "2025-06-05", "2025-06-10", "12:00", "13:30",
                             [VS.Entry("Ntorq", 1)])
  const Rider := Registration.Profile("Rider", "rider@example.com", "9999999999")

  lemma FirstDraftReady()
    ensures Ready(FirstDraft)
  {
    BookingDate.ReturnBeforeArrivalExample();
    VS.SummaryExample();
  }

  lemma SecondDraftReady()
    ensures Ready(SecondDraft)
  {
    BookingDate.ReturnBeforeArrivalExample();
    assert VS.Total([VS.Entry("Ntorq", 1)]) == 1;
  }

  lemma FirstRecord()
    ensures BookingRecord(Rider, FirstDraft).vehicles == "2 x Activa 125, 1 x RE Classic 350"
    ensures BookingRecord(Rider, FirstDraft).totalVehicles == 3
    ensures BookingRecord(Rider, FirstDraft).arrivalTime == "12:00 PM"
    ensures BookingRecord(Rider, FirstDraft).returnTime == "1:30 PM"
  {
    var b := BookingRecord(Rider, FirstDraft);
    assert b.vehicles == VS.Summary(FirstDraft.vehicles) && b.totalVehicles == VS.Total(FirstDraft.vehicles);
    assert b.arrivalTime == SheetTime.FormatTime("12:00") && b.returnTime == SheetTime.FormatTime("13:30");
    VS.SummaryExample();
    SheetTime.FormatNoon();
    SheetTime.FormatAfternoon();
  }

  lemma SecondRecord()
    ensures BookingRecord(Rider, SecondDraft).vehicles == "1 x Ntorq"
    ensures BookingRecord(Rider, SecondDraft).totalVehicles == 1
  {
    var e := VS.Entry("Ntorq", 1);
    VS.SingleVehicle(e);
    assert VS.Render(e) == "1 x Ntorq" by {
      assert Decimal.IntText(1) == "1";
    }
  }

  lemma ExampleRecords()
    ensures BookingRecord(Rider, FirstDraft).vehicles == "2 x Activa 125, 1 x RE Classic 350"
    ensures BookingRecord(Rider, FirstDraft).totalVehicles == 3
    ensures BookingRecord(Rider, FirstDraft).arrivalTime == "12:00 PM"
    ensures BookingRecord(Rider, FirstDraft).returnTime == "1:30 PM"
    ensures BookingRecord(Rider, SecondDraft).vehicles == "1 x Ntorq"
    ensures BookingRecord(Rider, SecondDraft).totalVehicles == 1
  {
    FirstRecord();
    SecondRecord();
  }

  /** Filling in the first draft field by field and pressing + three times. */
  method FillFirstDraft(s: Session)
    requires s.Valid() && s.Showing() == BookingForm && s.formData == EmptyDraft
    modifies s`formData
    ensures s.Valid() && s.Showing() == BookingForm && s.formData == FirstDraft
  {
    s.HandleFormChange(PickupLocation, "Roorkee");
    s.HandleFormChange(TripDestination, "Mussoorie");
    s.HandleFormChange(ArrivalDate, "2025-06-05");
    s.HandleFormChange(ReturnDate, "2025-06-10");
    s.HandleFormChange(ArrivalTime, "12:00");
    s.HandleFormChange(ReturnTime, "13:30");
    VS.AdjustExample();
    s.HandleVehicleCountChange("Activa 125", 1);
    s.HandleVehicleCountChange("Activa 125", 1);
    s.HandleVehicleCountChange("RE Classic 350", 1);
  }

  method FillSecondDraft(s: Session)
    requires s.Valid() && s.Showing() == BookingForm && s.formData == EmptyDraft
    modifies s`formData
    ensures s.Valid() && s.Showing() == BookingForm && s.formData == SecondDraft
  {
    s.HandleFormChange(PickupLocation, "Haridwar");
    s.HandleFormChange(TripDestination, "Rishikesh");
    s.HandleFormChange(ArrivalDate, "2025-06-05");
    s.HandleFormChange(ReturnDate, "2025-06-10");
    s.HandleFormChange(ArrivalTime, "12:00");
    s.HandleFormChange(ReturnTime, "13:30");
    s.HandleVehicleCountChange("Ntorq", 1);
    assert s.formData.vehicles == [VS.Entry("Ntorq", 1)];
  }

  /** "Book the Ride" with the first draft, for a visitor who has not registered: the
      registration screen opens and nothing is posted. */
  method AskToRegister(s: Session) returns (beforeRegistering: Option<Booking>)
    requires s.Valid() && s.Showing() == BookingForm && s.formData == FirstDraft
    requires !s.isRegistered && s.registerData == Registration.Blank
    modifies s
    ensures s.Valid() && s.Showing() == RegistrationForm && s.formData == FirstDraft
    ensures !s.isRegistered && s.registerData == Registration.Blank
    ensures beforeRegistering == None
  {
    assert Ready(FirstDraft) by { FirstDraftReady(); }
    var bookOutcome;
    bookOutcome, beforeRegistering := s.HandleBookRide(true);
  }

  /** Filling in the profile and "Register & Book Ride": the draft is posted with it. */
  method RegisterRider(s: Session) returns (first: Option<Booking>)
    requires s.Valid() && s.Showing() == RegistrationForm && s.formData == FirstDraft
    requires !s.isRegistered && s.registerData == Registration.Blank
    modifies s
    ensures s.Valid() && s.Showing() == Confirmation && s.isRegistered && s.registerData == Rider
    ensures first == Some(BookingRecord(Rider, FirstDraft))
  {
    s.HandleRegisterChange(Registration.Name, "Rider");
    s.HandleRegisterChange(Registration.Email, "rider@example.com");
    s.HandleRegisterChange(Registration.Phone, "9999999999");
    assert s.registerData == Rider;
    var registerOutcome;
    registerOutcome, first := s.HandleRegister(true);
  }

  /** First booking of a visitor who has not registered: "Book the Ride" only opens the
      registration screen; "Register & Book Ride" posts the draft with the profile. */
  method BookAsNewVisitor(s: Session) returns (beforeRegistering: Option<Booking>, first: Option<Booking>)
    requires s.Valid() && s.Showing() == BookingForm && s.formData == FirstDraft
    requires !s.isRegistered && s.registerData == Registration.Blank
    modifies s
    ensures s.Valid() && s.Showing() == Confirmation && s.isRegistered && s.registerData == Rider
    ensures beforeRegistering == None && first == Some(BookingRecord(Rider, FirstDraft))
  {
    beforeRegistering := AskToRegister(s);
    first := RegisterRider(s);
  }

  /** "Book Another Ride" and the second draft: the profile and the registration stay. */
  method StartOver(s: Session)
    requires s.Valid() && s.Showing() == Confirmation && s.isRegistered && s.registerData == Rider
    modifies s
    ensures s.Valid() && s.Showing() == BookingForm && s.isRegistered && s.registerData == Rider
    ensures s.formData == SecondDraft
  {
    s.BookAnotherRide();
    FillSecondDraft(s);
  }

  /** A registered visitor's booking is posted at once. */
  method BookRegistered(s: Session) returns (outcome: Outcome, second: Option<Booking>)
    requires s.Valid() && s.Showing() == BookingForm && s.isRegistered && s.registerData == Rider
    requires s.formData == SecondDraft
    modifies s
    ensures outcome == Confirmed && second == Some(BookingRecord(Rider, SecondDraft))
  {
    assert Ready(SecondDraft) by { SecondDraftReady(); }
    outcome, second := s.HandleBookRide(true);
  }

  /** A visitor's first two bookings: the first opens the registration screen and is posted
      with the profile once the visitor registers; after "Book Another Ride" the form is
      empty, the visitor is still registered, and the second booking is posted directly. */
  method FirstAndSecondBooking() returns (beforeRegistering: Option<Booking>, first: Option<Booking>,
                                          second: Option<Booking>, secondOutcome: Outcome)
    ensures beforeRegistering == None
    ensures first.Some? && first.value.name == "Rider" && first.value.pickupLocation == "Roorkee"
    ensures first.value.vehicles == "2 x Activa 125, 1 x RE Classic 350" && first.value.totalVehicles == 3
    ensures first.value.arrivalTime == "12:00 PM" && first.value.returnTime == "1:30 PM"
    ensures secondOutcome == Confirmed && second.Some? && second.value.name == "Rider"
    ensures second.value.vehicles == "1 x Ntorq" && second.value.totalVehicles == 1
  {
    var s := new Session();
    FillFirstDraft(s);
    beforeRegistering, first := BookAsNewVisitor(s);
    StartOver(s);
    secondOutcome, second := BookRegistered(s);
    ExampleRecords();
  }
}
