/**
 The rider screen: a three-step booking flow. The rider picks a veterinary
 clinic, fills in the pet's details, and confirms. A validation gate stands
 before the confirmation step, "back" moves one step, and confirming resets
 the form. The reset follows the confirmation after a delay in the product;
 here it is immediate.
 */
module User {
  import opened Common
  import PriceEstimator

  datatype Step = SelectVet | PetDetails | Confirm

  datatype VetStatus = Online | Offline | Extended

  datatype Veterinary = Veterinary(
    id: string,
    name: string,
    address: string,
    distance: real,
    status: VetStatus,
    accepts: seq<string>,
    rating: real)

  /** The free-text fields of the pet form; the weight is kept as the text
      typed into its input. */
  datatype PetInfo = PetInfo(breed: string, weight: string, notes: string)

  /** The screen's state; `petType == None` is the screen's empty choice `""`. */
  datatype RiderState = RiderState(
    step: Step,
    selectedVet: Option<Veterinary>,
    petType: Option<PetType>,
    details: PetInfo)

  /** Position of a step in the flow. */
  function StepIndex(step: Step): nat {
    match step
    case SelectVet => 0
    case PetDetails => 1
    case Confirm => 2
  }

  /** A fresh screen: first step, nothing chosen, every field empty. */
  function Initial(): RiderState {
    RiderState(SelectVet, None, None, PetInfo("", "", ""))
  }

  /** Every form field is back to its starting value. */
  predicate IsBlank(s: RiderState) {
    && s.step == SelectVet
    && s.selectedVet.None?
    && s.petType.None?
    && s.details.breed == "" && s.details.weight == "" && s.details.notes == ""
  }

  /** The validation gate: a species is chosen and breed and weight are
      non-empty; the notes are optional. */
  predicate GateOpen(s: RiderState) {
    s.petType.Some? && s.details.breed != "" && s.details.weight != ""
  }

  /** Choosing a clinic records it and moves on to the pet form; the form's
      contents are kept. */
  function SelectVeterinary(s: RiderState, vet: Veterinary): (r: RiderState)
    ensures r.selectedVet == Some(vet)
    ensures StepIndex(r.step) == 1
    ensures r.petType == s.petType && r.details == s.details
  {
    s.(selectedVet := Some(vet), step := PetDetails)
  }

  /** "Continue" on the pet form: refused (nothing changes) unless the gate
      is open, otherwise the flow moves to the confirmation step. */
  function SubmitPetDetails(s: RiderState): (r: RiderState)
    ensures !GateOpen(s) ==> r == s
    ensures GateOpen(s) ==> r.step == Confirm
    ensures r.selectedVet == s.selectedVet && r.petType == s.petType && r.details == s.details
  {
    if s.petType.None? || s.details.breed == "" || s.details.weight == "" then s
    else s.(step := Confirm)
  }

  /** "Back": from the pet form to the clinic list, from the confirmation to
      the pet form; no other field changes. The first step has no back. */
  function Back(s: RiderState): (r: RiderState)
    ensures s.step != SelectVet ==> StepIndex(r.step) + 1 == StepIndex(s.step)
    ensures s.step == SelectVet ==> r == s
    ensures r.selectedVet == s.selectedVet && r.petType == s.petType && r.details == s.details
  {
    match s.step
    case SelectVet => s
    case PetDetails => s.(step := SelectVet)
    case Confirm => s.(step := PetDetails)
  }

  /** Picking a species changes the species and nothing else. */
  function SetPetType(s: RiderState, pet: PetType): (r: RiderState)
    ensures r.petType == Some(pet)
    ensures r.step == s.step && r.selectedVet == s.selectedVet && r.details == s.details
  {
    s.(petType := Some(pet))
  }

  /** Editing the breed changes the breed and nothing else. */
  function SetBreed(s: RiderState, breed: string): (r: RiderState)
    ensures r.details.breed == breed
    ensures r.details.weight == s.details.weight && r.details.notes == s.details.notes
    ensures r.step == s.step && r.selectedVet == s.selectedVet && r.petType == s.petType
  {
    s.(details := s.details.(breed := breed))
  }

  /** Editing the weight changes the weight and nothing else. */
  function SetWeight(s: RiderState, weight: string): (r: RiderState)
    ensures r.details.weight == weight
    ensures r.details.breed == s.details.breed && r.details.notes == s.details.notes
    ensures r.step == s.step && r.selectedVet == s.selectedVet && r.petType == s.petType
  {
    s.(details := s.details.(weight := weight))
  }

  /** Editing the notes changes the notes and nothing else. */
  function SetNotes(s: RiderState, notes: string): (r: RiderState)
    ensures r.details.notes == notes
    ensures r.details.breed == s.details.breed && r.details.weight == s.details.weight
    ensures r.step == s.step && r.selectedVet == s.selectedVet && r.petType == s.petType
  {
    s.(details := s.details.(notes := notes))
  }

  /** Confirming the trip resets the whole form, whatever it held. */
  function ConfirmTrip(s: RiderState): (r: RiderState)
    ensures IsBlank(r)
  {
    s.(step := SelectVet, selectedVet := None, petType := None, details := PetInfo("", "", ""))
  }

  /** A click or edit on one of the screen's controls. */
  datatype RiderAction =
    | ChooseVet(vet: Veterinary)
    | ChoosePet(pet: PetType)
    | EditBreed(breed: string)
    | EditWeight(weight: string)
    | EditNotes(notes: string)
    | Continue
    | GoBack
    | ConfirmRequest

  /** Whether the control is on screen: the clinic cards in the first step,
      the form and its buttons in the second step, the confirmation buttons
      in the third; the second and third panels are drawn only once a clinic
      is selected. */
  predicate Enabled(s: RiderState, a: RiderAction) {
    match a
    case ChooseVet(_) => s.step == SelectVet
    case ChoosePet(_) => s.step == PetDetails && s.selectedVet.Some?
    case EditBreed(_) => s.step == PetDetails && s.selectedVet.Some?
    case EditWeight(_) => s.step == PetDetails && s.selectedVet.Some?
    case EditNotes(_) => s.step == PetDetails && s.selectedVet.Some?
    case Continue => s.step == PetDetails && s.selectedVet.Some?
    case GoBack => s.step != SelectVet && s.selectedVet.Some?
    case ConfirmRequest => s.step == Confirm && s.selectedVet.Some?
  }

  /** The effect of an action; a control that is not on screen does nothing. */
  function Apply(s: RiderState, a: RiderAction): (r: RiderState)
    ensures !Enabled(s, a) ==> r == s
    ensures r.details != s.details || r.petType != s.petType ==>
              s.step == PetDetails || a == ConfirmRequest
  {
    if !Enabled(s, a) then s
    else
      match a
      case ChooseVet(vet) => SelectVeterinary(s, vet)
      case ChoosePet(pet) => SetPetType(s, pet)
      case EditBreed(breed) => SetBreed(s, breed)
      case EditWeight(weight) => SetWeight(s, weight)
      case EditNotes(notes) => SetNotes(s, notes)
      case Continue => SubmitPetDetails(s)
      case GoBack => Back(s)
      case ConfirmRequest => ConfirmTrip(s)
  }

  /** The state after a sequence of actions. */
  function Run(s: RiderState, actions: seq<RiderAction>): RiderState
    decreases |actions|
  {
    if |actions| == 0 then s else Run(Apply(s, actions[0]), actions[1..])
  }

  /** The pet form is shown with a clinic selected, and the confirmation step
      holds a clinic and a form that passed the gate. */
  predicate Inv(s: RiderState) {
    && (s.step == PetDetails ==> s.selectedVet.Some?)
    && (s.step == Confirm ==> s.selectedVet.Some? && GateOpen(s))
  }

  /** The fare shown on the confirmation screen, for the selected clinic's
      distance at `hour`; nothing is shown on the other steps. */
  function ConfirmScreenQuote(s: RiderState, hour: PriceEstimator.Hour): (q: Option<PriceEstimator.FareQuote>)
    ensures q.Some? <==> s.step == Confirm && s.selectedVet.Some?
    ensures q.Some? ==> q.value.total == PriceEstimator.Fare(s.selectedVet.value.distance, hour)
  {
    if s.step == Confirm && s.selectedVet.Some? then
      Some(PriceEstimator.Quote(s.selectedVet.value.distance, hour))
    else None
  }

  // ---------------------------------------------------------------------
  // Properties

  /** The reset's four writes restore exactly the screen's initial values,
      whatever state it starts from. */
  lemma ConfirmRestoresInitial(s: RiderState)
    ensures ConfirmTrip(s) == Initial()
    ensures IsBlank(Initial()) && StepIndex(Initial().step) == 0
  {
  }

  /** The gate refuses a form missing the species, the breed or the weight,
      and lets through any form with all three, whatever the notes hold. */
  lemma GateDecides(s: RiderState)
    requires s.step == PetDetails
    ensures SubmitPetDetails(s).step == Confirm <==>
              s.petType.Some? && s.details.breed != "" && s.details.weight != ""
    ensures SubmitPetDetails(s).step == Confirm <==> SubmitPetDetails(s.(details := s.details.(notes := ""))).step == Confirm
  {
  }

  /** Apart from the reset, no action skips a step: each moves at most one
      step forward or back. */
  lemma NoStepSkipped(s: RiderState, a: RiderAction)
    requires a != ConfirmRequest
    ensures StepIndex(Apply(s, a).step) <= StepIndex(s.step) + 1
    ensures StepIndex(s.step) <= StepIndex(Apply(s, a).step) + 1
  {
  }

  /** Every action keeps the invariant. */
  lemma ApplyPreservesInv(s: RiderState, a: RiderAction)
    requires Inv(s)
    ensures Inv(Apply(s, a))
  {
  }

  /** Every sequence of actions keeps the invariant. */
  lemma {:induction false} RunPreservesInv(s: RiderState, actions: seq<RiderAction>)
    requires Inv(s)
    ensures Inv(Run(s, actions))
    decreases |actions|
  {
    if |actions| > 0 {
      ApplyPreservesInv(s, actions[0]);
      RunPreservesInv(Apply(s, actions[0]), actions[1..]);
    }
  }

  /** In every state reachable from a fresh screen, the confirmation step
      has a selected clinic, a chosen species, a breed and a weight, so its
      fare estimate is always shown. */
  lemma ReachableConfirmIsComplete(actions: seq<RiderAction>, hour: PriceEstimator.Hour)
    ensures var s := Run(Initial(), actions);
            s.step == Confirm ==>
              && s.selectedVet.Some?
              && s.petType.Some? && s.details.breed != "" && s.details.weight != ""
              && ConfirmScreenQuote(s, hour).Some?
  {
    RunPreservesInv(Initial(), actions);
  }
}
