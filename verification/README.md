# Pet transport dispatch: fare estimator and trip lifecycles

A Dafny model of the three pieces of sequential logic in the pet-transport
front end. Each one is written as pure functions over immutable datatypes.

- **Fare estimator** (`PriceEstimator`, in `price_estimator.dfy`). The fare is a base charge
  of 50 plus 15 per kilometre. At night (hour ≥ 22 or hour < 6) it is
  multiplied by 1.5. The module also models the breakdown the screen shows:
  the base line, the distance line, the night surcharge line and the total.
- **Driver screen** (`Driver`, in `driver.dfy`). The state is a list of pending trip requests
  and an optional active trip. The module has the accept, reject and
  complete handlers. It also models which controls can be clicked: accept is
  disabled while a trip is active, and complete is shown only while one is.
- **Rider screen** (`User`, in `user.dfy`). This is the three-step booking flow:
  select a clinic, fill in the pet details, confirm. It has the validation
  gate, one-step back navigation, field edits and the reset after
  confirmation.
- `Common` (in `common.dfy`) holds `Option` and the `Dog | Cat` species type.

The hour of the day is a parameter in 0..23, not read from a clock. Fares
are exact `real`s. The pending-list removal `filter((r) => r.id !== id)` is
the recursive function `Driver.Without`. Three properties characterise it:
membership, order (a subsequence of the input) and length (the input length
minus the number of requests that carry the id). `Driver.WithoutUnique`
proves that these three properties determine the result.

Details of the code's behaviour that the model follows:

- The handlers do not check the guards themselves. `handleAcceptTrip` would
  replace an active trip. The guard is the `disabled` attribute of the accept
  button, and the complete button is only rendered while a trip is active.
  So the handlers are modelled without guards, and `Driver.Step` adds the
  guards of the on-screen controls.
- Accept and reject remove every pending request that carries the id, not
  just "that request". The two readings agree when ids are unique, and ids
  stay unique in every reachable state (`Driver.ReachableInv`).
- The reject button is never disabled, so a request can be rejected while
  another trip is active.
- The driver state is the pending list plus the optional active trip;
  nothing else is tracked.
- Going back from the pet form keeps the selected clinic and the form
  contents. Only the step changes.

## Model

| member | source | states |
|---|---|---|
| PriceEstimator.Fare | src/components/PriceEstimator.tsx:9-17 | by day the fare is 50 + 15 × distance; at night it is that subtotal plus half of it again; for distance ≥ 0 it is at least the base fare |
| PriceEstimator.Quote | src/components/PriceEstimator.tsx:31-53 | the displayed breakdown: the surcharge line appears exactly at night and is half the subtotal; base + distance cost + surcharge equals the total; the total is the fare |
| PriceEstimator.NightTimeBoundaries | src/components/PriceEstimator.tsx:9 | night iff the hour is not in 6..21; hour 22 is night and hour 6 is day |
| PriceEstimator.FareFloor | src/components/PriceEstimator.tsx:14-17 | for distance ≥ 0 the fare is at least 50; zero distance costs 50 by day and 75 by night |
| PriceEstimator.FareMonotone | src/components/PriceEstimator.tsx:14-17 | the fare does not decrease as the distance grows |
| PriceEstimator.NightAtLeastDay | src/components/PriceEstimator.tsx:12-17 | for the same non-negative distance the night fare is 1.5 × the day fare, so never lower |
| PriceEstimator.SurchargeIsHalfSubtotal | src/components/PriceEstimator.tsx:40-44 | the surcharge line computed as (fare / 1.5) × 0.5 is half of 50 + 15 × distance, and the three lines add up to the night total |
| PriceEstimator.ExampleFares | src/components/PriceEstimator.tsx:10-17 | 5.2 km at 14:00 costs 128; 8.5 km at 23:00 costs 266.25 |
| Driver.Without | src/pages/Driver.tsx:60 | the filtered list keeps exactly the requests whose id differs, as a subsequence of the original, and its length is the original length minus the number of requests with that id |
| Driver.AcceptTrip | src/pages/Driver.tsx:58-62 | the accepted trip becomes active; no pending request carries its id afterwards; all other requests are kept, in order and with their multiplicity (the length drops by the number of requests with that id) |
| Driver.RejectTrip | src/pages/Driver.tsx:64-67 | the requests with the id are removed, all others are kept in order and with their multiplicity, and the active trip is unchanged |
| Driver.CompleteTrip | src/pages/Driver.tsx:69-72 | no trip is active afterwards and the pending list is unchanged |
| Driver.Step | src/pages/Driver.tsx:176-279 | a control that is not clickable does nothing; accept while a trip is active changes nothing; the active trip changes only when complete clears it or accept fills an empty slot |
| Driver.WithoutAbsent | src/pages/Driver.tsx:65 | removing an id that no request carries leaves the list unchanged |
| Driver.WithoutIdempotent | src/pages/Driver.tsx:65 | removing an id twice equals removing it once |
| Driver.WithoutCommutes | src/pages/Driver.tsx:65 | removing two ids in either order gives the same list |
| Driver.WithoutUnique | src/pages/Driver.tsx:60 | any order-preserving selection that avoids the id and has the expected length is the filter's result |
| Driver.WithoutPresentShrinksByOne | src/pages/Driver.tsx:60 | with unique ids, removing a present id shrinks the list by exactly one |
| Driver.WithoutKeepsUnique | src/pages/Driver.tsx:60 | removing an id keeps the remaining ids unique |
| Driver.RejectIdempotent | src/pages/Driver.tsx:64-67 | rejecting twice equals rejecting once; rejecting an id that is not pending changes nothing |
| Driver.HandledRequestShrinksList | src/pages/Driver.tsx:58-67 | with unique ids, accepting or rejecting a pending request shrinks the list by one |
| Driver.StepRemovesOnlyHandled | src/pages/Driver.tsx:58-67 | a request leaves the pending list only if it is accepted or rejected under its own id |
| Driver.StepPreservesInv | src/pages/Driver.tsx:55-72 | every click keeps pending ids unique and keeps the active trip's id out of the pending list |
| Driver.RunPreservesInv | src/pages/Driver.tsx:55-72 | any sequence of clicks keeps that invariant |
| Driver.ReachableInv | src/pages/Driver.tsx:23-56 | from the initial sample list, every reachable state has unique pending ids and at most one active trip, which is not also pending |
| User.SelectVeterinary | src/pages/User.tsx:64-68 | the clinic is recorded and the flow moves to the pet form; the form contents are kept |
| User.SubmitPetDetails | src/pages/User.tsx:70-76 | a form missing the species, breed or weight is refused and nothing changes; otherwise the step becomes confirm |
| User.Back | src/pages/User.tsx:238-290 | back moves exactly one step toward the start and changes nothing else; there is no back from the first step |
| User.SetPetType | src/pages/User.tsx:199-202 | picking a species changes only the species |
| User.SetBreed | src/pages/User.tsx:211 | editing the breed changes only the breed |
| User.SetWeight | src/pages/User.tsx:222 | editing the weight changes only the weight |
| User.SetNotes | src/pages/User.tsx:233 | editing the notes changes only the notes |
| User.ConfirmTrip | src/pages/User.tsx:78-87 | after confirming, the step is the first one, no clinic or species is chosen, and breed, weight and notes are empty |
| User.Apply | src/pages/User.tsx:137-300 | a control that is not on screen does nothing; species and form fields change only on the pet-details step or through the reset |
| User.ConfirmScreenQuote | src/pages/User.tsx:251-286 | a fare estimate is shown exactly on the confirmation step with a clinic selected, and it is the fare for the clinic's distance |
| User.ConfirmRestoresInitial | src/pages/User.tsx:55-86 | the four writes of the reset (lines 82-85) give exactly the state initialised at lines 55-62, whatever state the reset starts from |
| User.GateDecides | src/pages/User.tsx:70-76 | from the pet form, continue reaches confirm if and only if species, breed and weight are all filled in; the notes play no part |
| User.NoStepSkipped | src/pages/User.tsx:64-76 | apart from the reset, every action moves at most one step forward or back |
| User.ApplyPreservesInv | src/pages/User.tsx:64-87 | every action keeps the invariant that the pet form has a clinic and the confirm step has a clinic and a form that passed the gate |
| User.RunPreservesInv | src/pages/User.tsx:64-87 | any sequence of actions keeps that invariant |
| User.ReachableConfirmIsComplete | src/pages/User.tsx:251 | in every state reachable from a fresh screen, the confirm step has a clinic, a species, a breed and a weight, so its fare estimate is always shown |

## Left out

- Rendering, CSS classes, icons and the toast notifications are not modelled. They only affect presentation. A refused submission is modelled as "state unchanged", without the message.
- The clock read `new Date().getHours()` is not modelled. The hour is a parameter in 0..23.
- The two-decimal rounding `toFixed(2)` and all string formatting are not modelled. Fares are exact reals, not IEEE doubles.
- User.ConfirmTrip: the reset happens after a 2-second timer in the product. Here it is an immediate transition, so clicks made during the delay are not modelled.
- The fares in the sample requests (180 and 320) are hard-coded literals, not outputs of the fare formula. The model carries them but claims nothing about them.
- The sample clinic list is not modelled. `User.SelectVeterinary` accepts any clinic value.
- The admin screen and its hard-coded statistics are not modelled. They are a read-only display of static data.
- The map components are not modelled. They place static markers at percentage offsets and contain no geospatial logic.
- Routing and the floating cards are not modelled. They are pure presentation. The pet selector only forwards `Dog` or `Cat`, which is `User.SetPetType`.
