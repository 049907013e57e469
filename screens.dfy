/** The screens of the booking widget and what each handler reports to the visitor. */
module Screens {

  datatype Screen = BookingForm | RegistrationForm | Confirmation

  /** Which screen `App` renders: the confirmation is checked first, then registration,
      and the booking form is shown otherwise. */
  function ScreenFor(showBookingConfirmation: bool, showRegister: bool): (s: Screen)
    ensures s == Confirmation <==> showBookingConfirmation
    ensures s == RegistrationForm <==> showRegister && !showBookingConfirmation
  {
    if showBookingConfirmation then Confirmation
    else if showRegister then RegistrationForm
    else BookingForm
  }

  /** The alert a handler raises, or the step it took when it raised none. */
  datatype Outcome =
    | IncompleteForm          // "Please fill in all fields and select at least one vehicle"
    | InvalidDateRange        // "Return date cannot be before arrival date"
    | IncompleteRegistration  // "Please fill in all registration fields"
    | BookingSaveFailed       // "There was an error saving your booking."
    | RegistrationSaveFailed  // "There was an error saving your registration."
    | RegistrationOpened      // the registration screen was opened, nothing was posted
    | Confirmed               // the booking was posted and the confirmation is shown
}
