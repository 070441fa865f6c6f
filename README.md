# Coffee-shop ordering core, modelled in Dafny

This project models the logic underneath a Next.js coffee-ordering app. The app's Prisma, Razorpay and React plumbing is not part of the model.

- **Cart store.** A stateful cart of line items keyed by menu item. It keeps one name per cup.
- **Pickup-slot generator.** It produces `HH:MM` slots between an opening and a closing time. Each slot is available or not, depending on a 15-minute lead time and a per-slot capacity.
- **Booking tally.** It counts today's paid, non-cancelled orders per `HH:MM` key. The generator consumes this tally.
- **Admin slot preview.** The same stepping loop, stopped after 20 entries. The settings form's defaults and constraints are modelled with it.
- **Order-creation route.** An ordered chain of guards, server-side pricing, and the pickup instant. It creates a pending order.
- **Barista counter.** The status progression `CONFIRMED → PREPARING → READY → COMPLETED`, the active board and the card labels.
- **Checkout wizard.** A three-step state machine gated by validators, with the mobile sanitiser and the cup-name defaults of the posted order.
- **OTP sign-in.** Issue a code to a mobile, creating or updating the customer record, then verify it through a fixed sequence of checks.
- **Search filters.** The storefront menu search and the admin order search.

## Modelling conventions

- **Time.** Wall-clock times are minutes after today's midnight. "Now" is an explicit parameter, in milliseconds after today's midnight. Stored pickup instants are minutes since a midnight-aligned epoch, so day `today` covers `[today*1440, today*1440 + 1440)`. Daylight-saving changes do not exist in the model.
- **Money.** Prices are whole rupees (`int`).
- **Strings.** Strings are `seq<char>`. Case folding is ASCII-only.
- **Database tables.** They are maps or sequences passed in. Query results are computed from them: `findMany` is a filter and `findUnique` is a map lookup.
- **Inputs taken as parameters.** Randomness is not modelled. The OTP code, the order number, the gateway's order id and the id of a new customer row are parameters.
- **State.** The cart store, the checkout wizard and the customer table are classes whose methods update their fields. Each method is specified by a pure function of the old state. The loops of the source are methods with loop invariants: the slot generator, the preview, the tally, the pricing and the two cart totals.

A slot is unavailable when it starts less than 15 minutes after now (src/lib/utils.ts:61-67). So at 08:50 the 09:00 slot is already unavailable (`TimeSlots.ExampleJustBeforeOpening`), even though nothing is booked. With now at 08:45 or earlier, the window 09:00–09:31 gives three available slots (`TimeSlots.ExampleThreeOpenSlots`).

## Model

| member | source | states |
|---|---|---|
| Text.MobilePatternIff | src/app/api/orders/route.ts:40-41 | The regex `^[6-9]\d{9}$` matches exactly the 10-character all-digit strings whose first digit is 6–9. |
| Text.TrimFacts | src/components/CheckoutModal.tsx:120 | `trim()` gives the empty string exactly for an all-space input. Otherwise the result has no white space at either end. |
| Text.TrimIdempotent | src/components/CheckoutModal.tsx:146 | Trimming an already trimmed name changes nothing. |
| Text.IncludesIff | src/app/admin/page.tsx:97-101 | `includes` holds exactly when the query occurs at some position of the string. |
| Text.Lower | src/app/page.tsx:54-56 | `toLowerCase` keeps the length and lowercases each ASCII letter in place. |
| Text.SplitJoin | src/lib/utils.ts:51-52 | `split(sep)` yields pieces free of `sep` that join back to the input. |
| Text.NatToStringRoundTrip | src/lib/utils.ts:65 | Reading back the decimal numeral of `n` gives `n`. |
| Text.Pad2Digits | src/lib/utils.ts:65 | `padStart(2, '0')` of a number below 100 is its tens digit followed by its units digit. |
| TimeSlots.FormatHHMM | src/lib/utils.ts:65 | The key of an hour and a minute is five characters with `:` in the middle. |
| TimeSlots.FormatIsPadded | src/lib/utils.ts:65 | The digit-wise key equals the two padded numerals joined by `:`. |
| TimeSlots.FormatParseRoundTrip | src/lib/utils.ts:51-65 | Parsing a formatted hour and minute with `split(':').map(Number)` returns the same hour and minute. |
| TimeSlots.ParseFormatRoundTrip | src/lib/utils.ts:51-65 | A canonical `HH:MM` string parses to `HH*60+MM`, and formatting that minute gives back the string. |
| TimeSlots.TimeKeyCanonical | src/lib/utils.ts:65 | The key of any minute is canonical. Its hour is `(t/60)%24` and its minute is `t%60`. |
| TimeSlots.TimeKeyInjective | src/lib/utils.ts:65 | Two minutes of the same day with the same key are the same minute. |
| TimeSlots.SlotCountExact | src/lib/utils.ts:63-77 | Step `k` is inside the window exactly when `k` is below `ceil((end-start)/d)`. |
| TimeSlots.GetTimeSlots | src/lib/utils.ts:41-80 | If either time fails to parse, the result is empty. Otherwise the `k`-th slot is at `start+k*d` with that instant's key and availability, and there are exactly `ceil((end-start)/d)` slots. |
| TimeSlots.SlotsBetween | src/lib/utils.ts:63-77 | The while loop emits exactly the slots of the window, in order. |
| TimeSlots.SlotTimesExact | src/lib/utils.ts:63-77 | `k` indexes a slot exactly when `start+k*d < end`, and that slot is at `start+k*d`. |
| TimeSlots.EmptyWindow | src/lib/utils.ts:64 | If `start >= end`, there are no slots. |
| TimeSlots.SlotsStepped | src/lib/utils.ts:76 | Consecutive slots are exactly `d` minutes apart, and every slot lies in `[start, end)`. |
| TimeSlots.SlotsIncreasing | src/lib/utils.ts:76 | Slot instants strictly increase. |
| TimeSlots.MissingKeyIsUnbooked | src/lib/utils.ts:66-68 | If a key is absent from `bookedSlots`, the slot is available exactly when it passes the lead-time cutoff and the capacity is positive. |
| TimeSlots.ExampleThreeOpenSlots | src/lib/utils.ts:61-74 | For window 09:00–09:31, step 15, nothing booked, now at 08:45 or earlier: the slots are 09:00, 09:15 and 09:30, all available. |
| TimeSlots.ExampleFullSlot | src/lib/utils.ts:66-72 | The same window with 09:15 booked five times leaves only 09:15 unavailable. |
| TimeSlots.ExampleTooSoon | src/lib/utils.ts:61-67 | At 09:10 a 09:15 slot is unavailable whatever its bookings. |
| TimeSlots.ExampleJustBeforeOpening | src/lib/utils.ts:61-67 | At 08:50 the 09:00 slot is unavailable. At 08:45 it is available. |
| Booking.TallyBookings | src/app/api/timeslots/route.ts:46-50 | After the `forEach`, each key maps to the number of orders whose pickup key it is. Only such keys are present. |
| Booking.TallyTotal | src/app/api/timeslots/route.ts:46-50 | Every tallied key is a key of the day. The tally's counts over the day's keys add up to the number of orders tallied. |
| Booking.DayKeysDistinct | src/app/api/timeslots/route.ts:48 | The 1440 minute keys of a day are pairwise distinct. |
| Booking.CountedKeyOccurs | src/app/api/timeslots/route.ts:48-49 | A key with a positive count is the pickup key of some order. |
| Booking.TimeSlotsToday | src/app/api/timeslots/route.ts:8-58 | The handler uses the stored config whatever its duration, or the default row when none is stored. It tallies exactly today's paid, non-cancelled orders and returns the generator's slots for that config and tally. |
| Booking.StoredZeroDurationNeverEnds | src/app/api/timeslots/route.ts:8-58 | As written, a stored 09:00–22:00 row with duration 0 is served as it is. The window is open and the generator's loop guard holds at every step. |
| Booking.UsableConfig | src/app/api/timeslots/route.ts:8-58 | The corrected choice always has a positive duration, and it is either the handler's own choice or the default row. |
| Booking.CorrectedTimeSlotsToday | src/app/api/timeslots/route.ts:8-58 | The corrected handler (see Findings) answers for every stored row. It serves the stored row when its duration is positive and the default row otherwise, with the same tally and generator as the handler. |
| Booking.UsableConfigAgrees | src/app/api/timeslots/route.ts:8-58 | With no stored row, or one with a positive duration, the corrected choice equals the handler's own. |
| Booking.DefaultWindow | src/app/api/timeslots/route.ts:11-20 | The default config opens at minute 540 and closes at 1320, and yields 52 slots of 15 minutes with capacity 5. |
| SlotPreview.PreviewLength | src/app/admin/timeslots/page.tsx:89 | The preview never has more than 20 entries. |
| SlotPreview.GeneratePreviewSlots | src/app/admin/timeslots/page.tsx:78-100 | If a time fails to parse, the preview is empty. Otherwise entry `k` is `start+k*d`, and the count is `min(20, slot count)` (20 when the step does not advance). |
| SlotPreview.PreviewBetween | src/app/admin/timeslots/page.tsx:89-97 | The two-exit while loop produces exactly `PreviewLength` entries, at `start+k*d`. |
| SlotPreview.PreviewLengthAtExit | src/app/admin/timeslots/page.tsx:89 | Whichever of the loop's two exit conditions fires, the count equals `PreviewLength`. |
| SlotPreview.PreviewIsPrefix | src/app/admin/timeslots/page.tsx:89-97 | For a positive duration, the preview is the instants of the first `min(20, n)` slots of `getTimeSlots` for the same config. |
| SlotPreview.PreviewEmptyIff | src/app/admin/timeslots/page.tsx:89 | The preview is empty exactly when `start >= end`. |
| SlotPreview.MoreNoteIff | src/app/admin/timeslots/page.tsx:226-230 | For a positive duration, "+ more slots" shows exactly when the window holds at least 20 slots. |
| SlotPreview.MoreNoteWithNothingMore | src/app/admin/timeslots/page.tsx:226-230 | 09:00–14:00 every 15 minutes has exactly 20 slots, and the note still shows. |
| SlotPreview.FormDefaultsAgree | src/app/admin/timeslots/page.tsx:20-184 | The form's defaults equal the server's default row and pass the form's own constraints (duration options at lines 164-168, capacity bounds at 183-184). Every accepted value has a positive duration and capacity. |
| OrderCreation.ItemCheckIff | src/app/api/orders/route.ts:61-69 | The row-count check passes exactly when the requested ids are distinct and all active. |
| OrderCreation.MissingFieldsFirst | src/app/api/orders/route.ts:32-37 | "Missing required fields" is the answer exactly when a field is empty or there are no items, whatever else the request holds. |
| OrderCreation.MobileCheck | src/app/api/orders/route.ts:40-46 | With all fields present, "Invalid mobile number" is the answer exactly when the mobile is not a valid Indian mobile. |
| OrderCreation.LocationBeforeItems | src/app/api/orders/route.ts:49-58 | An unknown or inactive location is refused before any item lookup: the menu does not affect the answer. |
| OrderCreation.AcceptedIff | src/app/api/orders/route.ts:32-74 | A request passes every guard exactly when its fields are present, its mobile is valid, its location is active, and its item ids are distinct and active. |
| OrderCreation.DuplicateIdRejected | src/app/api/orders/route.ts:61-74 | A request listing the same menu item twice is refused. |
| OrderCreation.PriceItems | src/app/api/orders/route.ts:77-87 | The `items.map` with its accumulator builds one line per request line, in order, at the server price with `cupNames` defaulting to `[]`. The total is the sum of the lines. |
| OrderCreation.TotalIsRequestTotal | src/app/api/orders/route.ts:77-87 | The total of the built lines is the server price times the requested quantity, summed over the request. |
| OrderCreation.Paise | src/app/api/orders/route.ts:100 | For whole-rupee totals, the paise amount is exactly `total*100`, the amount also stored at line 138. |
| OrderCreation.CreateOrder | src/app/api/orders/route.ts:20-146 | It returns the first failed guard's error. An unparseable pickup time gives 500. Otherwise the order carries the request's fields, the server-priced lines and total, the paise amount, today's pickup instant and status PENDING. |
| OrderCreation.CreatedOrderTalliedUnderItsTime | src/app/api/orders/route.ts:90-92 | An order created for `HH:MM`, once paid and not cancelled, is eligible today and is tallied under `HH:MM` (src/app/api/timeslots/route.ts:48). |
| Counter.NextStatusTable | src/app/counter/page.tsx:184-189 | `CONFIRMED→PREPARING→READY→COMPLETED`. Exactly the three active statuses have a successor, each one rank further along. |
| Counter.StepsRank | src/app/counter/page.tsx:184-189 | Each press of the button moves exactly one rank along. |
| Counter.NoRepeats | src/app/counter/page.tsx:184-189 | The presses from any status never revisit a status. |
| Counter.ConfirmedToCompleted | src/app/counter/page.tsx:184-189 | A new order reaches COMPLETED after exactly three presses, and then has no successor. |
| Counter.ActiveOrders | src/app/counter/page.tsx:100 | The active board is an order-preserving subsequence of the orders. It holds exactly those with status CONFIRMED, PREPARING or READY. |
| Counter.ActiveHaveButton | src/app/counter/page.tsx:100-271 | Every active card has a next status, so its button shows. |
| Counter.FinishedNotActive | src/app/counter/page.tsx:100 | Completed and cancelled orders never reach the active board. |
| Counter.DisplayLabel | src/app/counter/page.tsx:37-41 | The mapped label for the three active statuses, otherwise the raw status, as printed on the card at line 200. |
| AdminOrders.FilteredOrders | src/app/admin/page.tsx:97-101 | The list is an order-preserving subsequence, holding exactly the orders that match the search. |
| AdminOrders.FilteredOrdersIff | src/app/admin/page.tsx:97-101 | An order is listed exactly when the search occurs, ignoring case, in its number or name, or occurs exactly in its mobile. |
| AdminOrders.EmptySearchKeepsAll | src/app/admin/page.tsx:97-101 | An empty search lists every order. |
| AdminOrders.SearchCaseInsensitive | src/app/admin/page.tsx:98-99 | A number or name match survives any change of case in the search text. |
| AdminOrders.StatusParam | src/app/admin/page.tsx:52 | The parameter is empty exactly when the filter is `all`. Otherwise it is `&status=` followed by the filter. |
| MenuSearch.Narrow | src/app/page.tsx:51-57 | A narrowed category keeps its id and name, and holds, in order, exactly the items that match. |
| MenuSearch.FilteredCategories | src/app/page.tsx:51-58 | The result is an order-preserving subsequence of the narrowed categories, and none of its categories is empty. |
| MenuSearch.ShownCategoryIff | src/app/page.tsx:51-58 | A category is shown exactly when it is the narrowing of some listed category that kept an item. |
| MenuSearch.ShownItemIff | src/app/page.tsx:53-57 | An item is kept exactly when the query occurs, ignoring case, in its name or in its non-null description. |
| MenuSearch.EmptyQueryKeepsNonEmpty | src/app/page.tsx:51-58 | An empty query shows every category that has an item, unchanged. |
| MenuSearch.TabsOverWholeMenu | src/app/page.tsx:109 | The tabs appear only over the unnarrowed menu. |
| Cart.FindIndex | src/store/cart.ts:45-47 | `findIndex` gives the first position holding the id, or -1 when no item has it. |
| Cart.AddExisting | src/store/cart.ts:45-53 | Adding an id already in the cart keeps the item count. That item gains one cup with a blank name and keeps its stored name and price. Other items are unchanged. |
| Cart.AddNew | src/store/cart.ts:56-58 | Adding a new id appends `{quantity: 1, cupNames: ['']}` at the end. |
| Cart.AddKeepsWellFormed | src/store/cart.ts:43-60 | Adding keeps `quantity >= 1`, `|cupNames| == quantity` and unique ids. |
| Cart.RemoveExactly | src/store/cart.ts:62-66 | Removing deletes exactly the items with that id and keeps the rest in order. An absent id changes nothing. |
| Cart.RemoveKeepsWellFormed | src/store/cart.ts:62-66 | Removing keeps the invariant. |
| Cart.SubsequenceWellFormed | src/store/cart.ts:62-66 | Any order-preserving subsequence of a well-formed cart is well formed. |
| Cart.QuantityResizes | src/store/cart.ts:75-91 | A quantity of at least one sets the item's quantity and name count to `q`. It keeps the first `min(old, q)` names, pads with blanks, and leaves other items untouched. |
| Cart.QuantityBelowOneRemoves | src/store/cart.ts:69-72 | A quantity below one is `removeItem`. |
| Cart.QuantityKeepsWellFormed | src/store/cart.ts:68-98 | Changing the quantity keeps the invariant. |
| Cart.RenameOnlyThatCup | src/store/cart.ts:100-111 | Renaming a cup changes only that index of that item's names. The name count and the other items stay. |
| Cart.RenameKeepsWellFormed | src/store/cart.ts:100-111 | Renaming keeps the invariant. |
| Cart.AllCupsNamedEffect | src/store/cart.ts:113-125 | Every name of that item becomes the argument. The count and the other items stay. |
| Cart.AllCupsNamedIdempotent | src/store/cart.ts:113-125 | Naming all cups twice with the same name is naming them once. |
| Cart.AllCupsNamedKeepsWellFormed | src/store/cart.ts:113-125 | Naming all cups keeps the invariant. |
| Cart.TotalsAfterUpdate | src/store/cart.ts:149-158 | Replacing one item shifts each total by the difference in that item's share. |
| Cart.AddTotals | src/store/cart.ts:43-158 | Adding raises the item total by one. The price total rises by the stored price of an existing item, or by the pick's price for a new one. |
| Cart.TotalItemsCountsCups | src/store/cart.ts:156-158 | For a well-formed cart, the item total is the number of cup names and at least the number of lines. |
| Cart.CartStore.AddItem | src/store/cart.ts:43-60 | The items become `Added(old items, pick)`, the invariant holds, and the four customer fields stay. |
| Cart.CartStore.RemoveItem | src/store/cart.ts:62-66 | The items become `Removed(old items, id)`, and the invariant holds. |
| Cart.CartStore.UpdateQuantity | src/store/cart.ts:68-98 | The items become `QuantityUpdated(old items, id, q)`, going through `RemoveItem` below one. The invariant holds. |
| Cart.CartStore.UpdateCupName | src/store/cart.ts:100-111 | The items become `CupRenamed(old items, id, i, n)`, and the invariant holds. |
| Cart.CartStore.SetAllCupNames | src/store/cart.ts:113-125 | The items become `AllCupsNamed(old items, id, n)`, and the invariant holds. |
| Cart.CartStore.SetCustomerInfo | src/store/cart.ts:127-129 | Sets name and mobile. Everything else stays. |
| Cart.CartStore.SetPickupLocation | src/store/cart.ts:131-133 | Sets the location. Everything else stays. |
| Cart.CartStore.SetPickupTime | src/store/cart.ts:135-137 | Sets the time. Everything else stays. |
| Cart.CartStore.ClearCart | src/store/cart.ts:139-147 | Empties the items and all four customer and pickup fields. |
| Cart.CartStore.GetTotal | src/store/cart.ts:149-154 | The loop computes the sum of `price*quantity`, which is 0 for an empty cart. |
| Cart.CartStore.GetTotalItems | src/store/cart.ts:156-158 | The loop computes the sum of quantities. For a valid cart this is the cup count and at least the line count, and 0 for an empty cart. |
| Cart.CartStore.constructor | src/store/cart.ts:37-41 | The store starts empty, with all four fields empty. |
| Checkout.Step1ValidIff | src/components/CheckoutModal.tsx:119-129 | Step 1 passes exactly when the name has a non-space character and the mobile is a valid Indian mobile. |
| Checkout.SanitizeMobile | src/components/CheckoutModal.tsx:305 | The kept mobile is all digits, at most 10 long, and a clean input of up to 10 digits passes unchanged. |
| Checkout.DigitsOf | src/components/CheckoutModal.tsx:305 | `replace(/\D/g, '')` leaves only digits, is no longer than its input, and keeps an all-digit input. |
| Checkout.SanitizeIdempotent | src/components/CheckoutModal.tsx:305 | Sanitising twice is sanitising once. |
| Checkout.SanitizeKeepsValidMobile | src/components/CheckoutModal.tsx:305 | A valid mobile passes through the sanitiser unchanged. |
| Checkout.CupNameOrDefault | src/components/CheckoutModal.tsx:170 | A cup's name is its trimmed name when that is non-empty, else the trimmed customer name. |
| Checkout.SubmittedCupNames | src/components/CheckoutModal.tsx:170 | The submitted list has one entry per cup, each given by the defaulting rule. |
| Checkout.SubmittedNamesFilled | src/components/CheckoutModal.tsx:170 | With a non-blank customer name, every submitted cup name is non-empty and already trimmed. A blank cup carries the customer's name. |
| Checkout.RequestLines | src/components/CheckoutModal.tsx:166-171 | One request line per cart item, with its id, quantity and defaulted cup names. |
| Checkout.PaymentRequestPassesFieldChecks | src/components/CheckoutModal.tsx:162-171 | The body posted after both steps pass, from a non-empty cart, clears the route's required-field and mobile guards (src/app/api/orders/route.ts:32-46). |
| Checkout.CheckoutWizard.constructor | src/components/CheckoutModal.tsx:77-85 | On mount, the wizard starts on step 1 with its fields taken from the store. |
| Checkout.CheckoutWizard.HandleNext | src/components/CheckoutModal.tsx:143-152 | Step 1 advances to 2 only when step 1 validates, storing the trimmed name and the mobile. Step 2 advances to 3 only when step 2 validates, storing location and time. Otherwise the step is unchanged. The step stays in 1..3. Without a transition the store is unchanged. Step 1 never touches the store's pickup fields, and step 2 never touches its customer fields. |
| Checkout.CheckoutWizard.Back | src/components/CheckoutModal.tsx:429-431 | Back decrements only when `step > 1`. |
| Checkout.CheckoutWizard.ClickSlot | src/components/CheckoutModal.tsx:351 | A slot click changes the selection only when the slot is available. |
| Checkout.CheckoutWizard.TypeMobile | src/components/CheckoutModal.tsx:305 | The mobile field holds the sanitised input. |
| Checkout.CheckoutWizard.SetName | src/components/CheckoutModal.tsx:290 | The name field holds the typed text. |
| Checkout.CheckoutWizard.SelectLocation | src/components/CheckoutModal.tsx:325 | The chosen location becomes the selection. |
| Checkout.CheckoutWizard.PaymentBody | src/components/CheckoutModal.tsx:162-171 | On step 3 the body about to be posted matches the store's details and passes the route's field and mobile guards. |
| Otp.IssueToExisting | src/app/api/auth/customer/send-otp/route.ts:21-37 | For a known mobile, only `otpCode` and `otpExpiry` change, to the code and now plus 600000 ms. No record is added. |
| Otp.IssueToNew | src/app/api/auth/customer/send-otp/route.ts:38-47 | For a new mobile, exactly one record is added, with name `''`, the code and the expiry. The others stay. |
| Otp.IssueKeepsTable | src/app/api/auth/customer/send-otp/route.ts:24-47 | After sending, the mobile has a record, and every record is filed under its own mobile. |
| Otp.CustomerTable.SendOtp | src/app/api/auth/customer/send-otp/route.ts:11-47 | An invalid mobile is refused with 400 and the table is unchanged. Otherwise the table becomes `Issued(...)`. |
| Otp.VerifyCheckOrder | src/app/api/auth/customer/verify-otp/route.ts:12-45 | Each failure is the answer exactly when every earlier check passed and its own check fails: 400 for missing input, then 404 for an unknown mobile, then "Invalid OTP", then "OTP expired". |
| Otp.ExpiryOnlyWhenPast | src/app/api/auth/customer/verify-otp/route.ts:40 | A code with no expiry never expires. A code with an expiry is still accepted at that very instant. |
| Otp.SendThenVerify | src/app/api/auth/customer/verify-otp/route.ts:32-45 | A code just issued to a valid mobile verifies at any time up to ten minutes later. |
| Otp.ReplayFails | src/app/api/auth/customer/verify-otp/route.ts:32-51 | After a success, the same code is refused as "Invalid OTP". |
| Otp.VerifiedRecord | src/app/api/auth/customer/verify-otp/route.ts:48-55 | A success clears code and expiry and keeps the id and mobile. The name becomes the given name, or the stored name when none is given. |
| Otp.CustomerTable.VerifyOtp | src/app/api/auth/customer/verify-otp/route.ts:12-55 | A failed check leaves the table unchanged and returns the failure. A success replaces exactly that record by its verified form and returns it. |

## Left out

- **Database access.** Prisma queries, the admin CRUD routes and the seed script are not modelled. Tables are in-memory maps and sequences, and query results are computed from them.
- **Payment gateway.** Razorpay order creation (src/app/api/orders/route.ts:97-107) and signature verification are foreign calls. The gateway's order id is a parameter of `OrderCreation.CreateOrder`. The gateway order created before an invalid pickup time makes the database write fail is not modelled. The gateway is assumed to accept every amount. A refusal or a network error would throw into the catch at src/app/api/orders/route.ts:140-145, giving 500 "Failed to create order". The route never checks the quantities (src/app/api/orders/route.ts:78-86), so a quantity of 0 or below gives a non-positive amount, which the model accepts.
- **Random codes and numbers.** `generateOTP` and `generateOrderNumber` are random. Their results are parameters.
- **JWT, cookies and bcrypt.** The token and cookie that verify-otp sets are not modelled.
- **Locale formatting.** `formatTime`, `formatPrice` and the preview's `toLocaleTimeString` are left out. Slots carry their instant `at`, and the preview yields instants.
- **Real dates.** `Date`, time zones and daylight saving are left out. Times are wall-clock minutes, and "now" is a parameter.
- **Floating-point money.** Prices are integers, so `Math.round(total*100)` is exact.
- **Capacity at order creation.** The order route does not check slot capacity, and neither does the model. Concurrent bookings are not modelled.
- **React rendering, toasts, polling, redirects and cart persistence.** These are UI concerns.
- **`Text.NumberValue`.** It reads a piece of `HH:MM` as a decimal numeral only. It does not model any other numeric form `Number()` accepts: surrounding white space, signs, decimals, exponents, `0x`/`0o`/`0b` prefixes and `Infinity`. Those inputs parse to `None` here.
- **`TimeSlots.GetTimeSlots`.** It requires a positive duration whenever the window is open. The source loops forever in that case.
- **`Booking.TimeSlotsToday`.** It requires the stored row's duration to be positive whenever the row's window is open, because the source never answers for such a row (see Findings). Closed windows with any duration are modelled as the source answers them: no slots, and the stored row is echoed.
- **`SlotPreview.GeneratePreviewSlots`.** With a step that does not advance, it stops at the 20-entry cap, as the source does.
- **`Cart.CartStore.UpdateCupName`.** It requires the index to name an existing cup of that item. In the source, an index past the end leaves holes in the name array and breaks the one-name-per-cup invariant. A negative index adds a non-element property. The only caller passes indices of existing cups.
- **`Cart.CartStore.AddItem`.** In the source, `addItem` mutates the existing entry object in place, and that object is shared with the previous state. The model works on item values, so that aliasing is not captured.
- **`Checkout.CheckoutWizard.SetName`, `TypeMobile`, `SelectLocation` and `ClickSlot`.** These inputs exist only on their own step, so each method requires that step.
- **Reopening the checkout modal.** The storefront keeps the modal mounted (src/app/page.tsx:169-172). Closing and reopening it therefore keeps the wizard's step and fields. The model's wizard is created once, on mount, and has no close or reopen operation.
- **Browser validation.** `SlotPreview.FormAccepts` states the form's HTML constraints. The browser enforces them on submit, and the model does not.
- **Non-string JSON fields.** The request fields of the order and OTP routes are strings. An absent field is the empty string, and JSON values of other types are not modelled.

## Findings

| source | as written | input that shows it | evidently intended | confidence | as-written member | corrected member |
|---|---|---|---|---|---|---|
| src/app/api/timeslots/route.ts:8-58 | The handler passes the stored `slotDuration` to `getTimeSlots` unchecked. The admin update route stores `parseInt` of the request body unchecked (src/app/api/admin/timeslots/route.ts:53). | A stored row 09:00–22:00 with `slotDuration` 0. The loop at src/lib/utils.ts:63-77 never advances, so the request never answers. | Only a positive duration reaches the generator, as the settings form's duration options suggest (src/app/admin/timeslots/page.tsx:164-168). | not executed | Booking.StoredZeroDurationNeverEnds | Booking.CorrectedTimeSlotsToday |
