# Stadium booking: phone sign-in, time slots, search and bookings

This project models the core of a football-stadium booking web service. It
covers the following parts, written in Dafny and proved against contracts:

- **One-time-code sign-in** (`lib/otp.ts`). The model covers code generation,
  the phone-number check, normalisation to `+998…` and the table of test
  numbers.
- **The in-memory store** (`lib/mock-storage.ts`). It holds OTP sessions and
  users keyed by phone number, and is used when no database is configured. It
  is a `class Store` whose two `map` fields change in place. Expiry is checked
  lazily when a session is read.
- **The mock-storage branch of `POST /api/auth/verify-otp`.** The flow is:
  check the input, look up the session, enforce the three-attempt limit,
  compare the code, then mark the session verified and find or create the
  user. It is the method `VerifyOtpRoute` over a `Store`, proved equal to the
  pure function `Verify` over the store's two maps.
- **Time slots** (`lib/time-slots.ts`). `generateTimeSlots` is a method with
  the source's two nested loops, proved against the specification function
  `SlotTimes`. The module also has the `HH:MM` arithmetic: duration, price
  and slot validity.
- **Stadium search** (`GET /api/stadiums`). The constant stadium table is
  filtered by city and by a free-text query, both compared case-insensitively.
- **Bookings** (`/api/bookings`). `class BookingTable` holds a map from user
  id to that user's list of bookings. `POST` validates the body and appends a
  booking; `GET` looks up one user's list.

Shared string behaviour lives in module `Text`: removing non-digits,
decimal printing and parsing, `padStart(2, '0')`, ASCII lower-casing and
`includes`.

Some inputs are passed in as parameters instead of being read from the
environment:

- clock readings (`Date.now()` and `new Date()`);
- the random draw of `Math.random()`;
- random ids;
- ISO timestamps.

JavaScript numbers are exact integers or reals. `NaN` is `None`.

## Model

| member | source | states |
|---|---|---|
| Text.Digits | lib/otp.ts:13 | Removing non-digits leaves only digits and never makes the string longer. |
| Text.DigitsOfDigits | lib/otp.ts:18 | A string that is already all digits is unchanged by removing non-digits. |
| Text.DigitsAppend | lib/otp.ts:18 | Removing non-digits from a concatenation gives the concatenation of each part's digits. |
| Text.DigitsOfChar | lib/otp.ts:13 | One character survives removing non-digits exactly when it is a digit. Together with `DigitsAppend` this fixes the result on every string. |
| Text.NatToDecimalSpec | lib/otp.ts:7 | `n.toString()` is a non-empty digit string that parses back to `n` and starts with `0` only when `n` is 0. |
| Text.NatToDecimalLength | lib/otp.ts:7 | A number in `[10^k, 10^(k+1))` prints with exactly `k+1` digits. |
| Text.PaddedDecimal | lib/time-slots.ts:6 | `String(n).padStart(2, '0')` is all digits and parses back to `n`. |
| Text.Includes | app/api/stadiums/route.ts:103 | `hay.includes(needle)` holds exactly when `needle` occurs in `hay` at some index. |
| Otp.GenerateOtp | lib/otp.ts:6-8 | For every draw in [0,1), the code has six digits and no leading zero. It reads back as `floor(100000 + r*900000)`, which lies in 100000..999999. |
| Otp.ValidatePhoneNumber | lib/otp.ts:10-14 | A valid phone has 9 to 13 digits, and every phone with 9 to 12 digits is valid, whatever else it contains. |
| Otp.ValidatePhoneNumberExactly | lib/otp.ts:10-14 | After non-digits are removed the `+998` alternative cannot match. A phone is valid exactly when it has 9–12 digits, or 13 digits with a leading `0`. |
| Otp.ValidateSeesOnlyDigits | lib/otp.ts:13 | Two inputs with the same digits get the same verdict. |
| Otp.NormalizePhoneNumber | lib/otp.ts:16-29 | The result is `+` followed only by digits, and those digits are the rewritten digits of the input. |
| Otp.NormalizeRules | lib/otp.ts:18-28 | The four branches on the input's digits: `998…` kept, leading `0` replaced by `998`, nine digits prefixed with `998`, anything else kept; always with `+` in front. |
| Otp.NormalizeSeesOnlyDigits | lib/otp.ts:18 | Inputs with the same digits normalise alike. |
| Otp.NormalizeIdempotent | lib/otp.ts:16-29 | Normalising a normalised number changes nothing. |
| Otp.NormalizeBare | lib/otp.ts:24-25 | A nine-digit subscriber number becomes `+998` followed by the number. |
| Otp.NormalizeTrunkPrefixed | lib/otp.ts:22-23 | `0` followed by a subscriber number becomes `+998` followed by the number. |
| Otp.NormalizeCountryPrefixed | lib/otp.ts:20-21 | `998` followed by a subscriber number is kept, with `+` in front. |
| Otp.NormalizeInternational | lib/otp.ts:18-21 | `+998` followed by a subscriber number is already normalised. |
| Otp.NormalizeLocalForms | lib/otp.ts:16-29 | The bare, `0`, `998` and `+998` spellings of one subscriber number all normalise to the same `+998…` value. |
| Otp.NormalizeExample | lib/otp.ts:16-29 | `901234567`, `0901234567`, `998901234567` and `+998901234567` all give `+998901234567`. |
| Otp.GetTestOtp | lib/otp.ts:69-71 | A code is returned exactly for test numbers, and every returned code has six digits. |
| Otp.IsTestPhoneNumber | lib/otp.ts:62-64 | Every test number is 13 characters long and starts with `+998`. |
| Otp.TestPhoneNumbersExactly | lib/otp.ts:53-64 | Exactly the three listed numbers are test numbers, and each maps to its fixed code. |
| Otp.CanonicalNumber | lib/otp.ts:10-29 | `+` followed by twelve digits beginning `998` is valid and already normalised. |
| Otp.TestPhoneNumbersCanonical | lib/otp.ts:53-57 | Every test number is valid and normalises to itself, so a normalised input can reach it. |
| MockStorage.NewSession | lib/mock-storage.ts:27-37 | A new session is unverified, has 0 attempts, and stores the phone and code. `created_at` is the `new Date()` reading. It expires 600000 ms after the separate `Date.now()` reading, so at least 10 minutes after `created_at` when the clock does not go back. |
| MockStorage.NewUser | lib/mock-storage.ts:65-71 | A new user has the drawn id, the phone, no full name, and the `new Date()` reading as its creation time. |
| MockStorage.Assign | lib/mock-storage.ts:60 | An empty update changes nothing. An update that leaves out the id, phone, code and both dates keeps those five fields. |
| MockStorage.AssignChangesOnlySupplied | lib/mock-storage.ts:60 | For each of the seven fields, the result holds the supplied value when one is given and the old value otherwise. Applying an update twice equals applying it once. |
| MockStorage.ActiveSession | lib/mock-storage.ts:43-54 | A session is returned only when one is stored under the phone and now ≤ its expiry, and it is the stored one. `null` means none is stored or it has expired. |
| MockStorage.PruneExpired | lib/mock-storage.ts:48-50 | A lookup deletes at most the looked-up entry and leaves every other session untouched. |
| MockStorage.UpdateSessions | lib/mock-storage.ts:56-62 | The result is `true` exactly when a session is stored under the phone. No phone is added or removed, other phones keep their sessions, and the stored one is merged with the update. |
| MockStorage.ActiveSessionSpec | lib/mock-storage.ts:43-54 | A lookup returns the stored session, verified or not, exactly when it exists and now ≤ its expiry. The entry is deleted exactly when it has expired. |
| MockStorage.CreatedSessionLifetime | lib/mock-storage.ts:36-48 | A session whose `Date.now()` reading was t is returned by every lookup up to t+600000, including that instant, and by none after. |
| MockStorage.CreateKeepsOtherPhones | lib/mock-storage.ts:39 | Creating a session for one phone leaves every other phone's lookup unchanged. |
| MockStorage.Store.constructor | lib/mock-storage.ts:22-24 | The store starts with no sessions and no users. |
| MockStorage.Store.CreateOtpSession | lib/mock-storage.ts:27-41 | Stores the new session under the phone, replacing any earlier one. Users are untouched, and entries stay keyed by their own phone. |
| MockStorage.Store.GetOtpSession | lib/mock-storage.ts:43-54 | Returns the active session, deletes an expired one, and touches nothing else. |
| MockStorage.Store.UpdateOtpSession | lib/mock-storage.ts:56-62 | Returns whether a session exists and merges the update into it; with no session, nothing changes. |
| MockStorage.Store.CreateUser | lib/mock-storage.ts:65-75 | Stores a user with no full name under the phone; the sessions are untouched. |
| MockStorage.Store.GetUser | lib/mock-storage.ts:77-79 | Returns a user exactly when one is stored under the phone, and that user. |
| MockStorage.Store.GetUserById | lib/mock-storage.ts:81-86 | A found user has the id and is stored. `null` means no stored user has the id. |
| VerifyOtp.Verify | app/api/auth/verify-otp/route.ts:10-166 | Every failure is a 400 that creates no user and adds no session. No user is ever removed. |
| VerifyOtp.CheckCode | app/api/auth/verify-otp/route.ts:120-166 | After the input check, every failure is a 400 that leaves the users alone and adds no session. No user is removed. |
| VerifyOtp.SuccessMeansVerified | app/api/auth/verify-otp/route.ts:10-166 | A success needs both inputs. It returns the normalised phone and a user id stored under that phone. The phone's session is then verified and holds the code sent. At most one user was added. |
| VerifyOtp.VerifyOtpRoute | app/api/auth/verify-otp/route.ts:117-166 | The response and the new store are exactly what the route's steps give, as defined by `Verify`. |
| VerifyOtp.MissingInputRefused | app/api/auth/verify-otp/route.ts:10-15 | A missing or empty phone or code gets 400 "Phone number and OTP are required", and the store is untouched. |
| VerifyOtp.NoSessionRefused | app/api/auth/verify-otp/route.ts:120-127 | With no active session the reply is 400 "OTP expired or not found". Only the expired entry is dropped, and no user is created. |
| VerifyOtp.TooManyAttemptsRefused | app/api/auth/verify-otp/route.ts:130-135 | With three or more attempts the reply is 400 "Too many attempts…" and the store is unchanged, even when the code is right. |
| VerifyOtp.WrongCodeCountsAttempt | app/api/auth/verify-otp/route.ts:138-147 | A wrong code gets 400 "Invalid OTP code" and raises `attempts` by exactly one. Nothing else changes. |
| VerifyOtp.RightCodeVerifies | app/api/auth/verify-otp/route.ts:149-166 | The right code marks the session verified and replies with the normalised phone. An existing user's id is reused; otherwise exactly one user is created. |
| VerifyOtp.SeesOnlyNormalizedPhone | app/api/auth/verify-otp/route.ts:17 | Two inputs that normalise alike get the same reply and the same new store. |
| VerifyOtp.VerifyKeepsKeyed | app/api/auth/verify-otp/route.ts:117-158 | Every session and user stays filed under its own phone. |
| VerifyOtp.VerifyKeepsAttemptsBounded | app/api/auth/verify-otp/route.ts:129-147 | If every session has between 0 and 3 attempts, that still holds after any call, because a wrong code is counted only below the limit of 3. |
| VerifyOtp.CreateKeepsAttemptsBounded | lib/mock-storage.ts:27-39 | Storing a new session keeps every session's attempts between 0 and 3. |
| VerifyOtp.ThreeWrongCodesLockOut | app/api/auth/verify-otp/route.ts:130-147 | Three wrong codes against a fresh session, all before it expires, lock it: a fourth call with the right code is refused, and no user was created. |
| VerifyOtp.ReverifyReturnsSameUser | app/api/auth/verify-otp/route.ts:152-158 | A later successful verification of the same phone returns the same user id and creates nobody. |
| TimeSlots.GenerateTimeSlots | lib/time-slots.ts:1-12 | The slots are the formatted times of `SlotTimes`: each hour from start to end, minutes 0, interval, 2·interval, … below 60. |
| TimeSlots.SlotTimesShape | lib/time-slots.ts:4-9 | Every time has start ≤ hour < end, a minute below 60 that is a multiple of the interval, and the times strictly increase. |
| TimeSlots.MinuteTimesShape | lib/time-slots.ts:5 | The inner loop's minutes lie below 60, are multiples of the interval, and increase. |
| TimeSlots.MinuteCount | lib/time-slots.ts:5 | The inner loop runs `ceil((60 - minute) / interval)` times. |
| TimeSlots.SlotCount | lib/time-slots.ts:1-12 | There are `(end - start) * ceil(60 / interval)` slots, and none when end ≤ start. |
| TimeSlots.HourlySlots | lib/time-slots.ts:4-9 | With an interval of 60 or more there is one slot per hour, on the hour. |
| TimeSlots.DefaultSlots | lib/time-slots.ts:1 | The defaults (6, 23, 60) give 17 slots, from "06:00" to "22:00". |
| TimeSlots.SplitAtColonSpec | lib/time-slots.ts:15 | The first field of `split(':')` holds no colon. There is a second field exactly when the string has a colon, and then the string is first field, colon, rest. |
| TimeSlots.ToNumber | lib/time-slots.ts:15 | A string that reads as a number starts with a digit or a sign. It reads as a negative number only when it starts with `-`. |
| TimeSlots.ToNumberOfString | lib/time-slots.ts:15 | `Number(String(n))` is `n` for every integer, negative ones included. |
| TimeSlots.TotalMinutes | lib/time-slots.ts:15-18 | A time with no colon is `NaN`. |
| TimeSlots.SlotFieldReadsBack | lib/time-slots.ts:6 | A padded field holds no colon and reads back as the number printed. |
| TimeSlots.ParseFormattedSlot | lib/time-slots.ts:6-18 | A formatted slot reads back as `hour*60 + minute`, also for a negative hour, which prints with its sign. |
| TimeSlots.IsTimeSlotValid | lib/time-slots.ts:28-36 | A valid slot has two times that both parse, so both contain a colon. No time forms a valid slot with itself. |
| TimeSlots.CalculateDuration | lib/time-slots.ts:14-22 | The duration is defined exactly when both times parse, and then equals (end − start minutes)/60. |
| TimeSlots.CalculatePrice | lib/time-slots.ts:24-26 | The price is 0 for zero hours, non-negative for non-negative inputs, and positive exactly when the rate is, for positive hours. |
| TimeSlots.DurationPositiveIffValid | lib/time-slots.ts:14-36 | The duration is positive exactly when `isTimeSlotValid` holds, and an empty interval costs 0. |
| TimeSlots.FormattedValidity | lib/time-slots.ts:28-36 | Two formatted times form a valid slot exactly when the first is earlier. |
| TimeSlots.SlotOrderIsValidity | lib/time-slots.ts:1-36 | For two generated slots, `isTimeSlotValid` holds exactly when the first comes earlier in the list. |
| Stadiums.Filter | app/api/stadiums/route.ts:103 | `filter` keeps exactly the elements that satisfy the predicate, as a subsequence in their original order. |
| Stadiums.FilterAppend | app/api/stadiums/route.ts:103 | Filtering a concatenation filters each part, which preserves order. |
| Stadiums.Search | app/api/stadiums/route.ts:99-120 | The result is an order-preserving subsequence. A stadium is in it exactly when it passes every filter switched on: city contains the city; name, description or location contains the query; all compared lower-cased. `count` equals the length of `data`. |
| Stadiums.NoFilterReturnsAll | app/api/stadiums/route.ts:99-107 | With no city and no query, or empty ones, all five stadiums come back in order, with count 5. |
| Stadiums.SearchIgnoresCase | app/api/stadiums/route.ts:103-108 | Lower-casing the parameters first does not change the answer. |
| Bookings.NewBooking | app/api/bookings/route.ts:17-31 | The booking echoes the request's fields, with id `booking-<now>`, status "confirmed" and payment method "cash". |
| Bookings.Post | app/api/bookings/route.ts:6-42 | The reply is a failure exactly when a required field is missing or empty. A failure is a 400 and leaves the table unchanged. A success files the new booking under its user, at the end of the earlier list. |
| Bookings.Get | app/api/bookings/route.ts:52-70 | Success exactly when `userId` is given and non-empty. Then `count` is the list's length. A known user gets exactly the stored list, and an unknown user gets `[]`. |
| Bookings.MissingFieldRefused | app/api/bookings/route.ts:10-15 | A body lacking any required field gets 400 "Missing required fields" and leaves the table unchanged. |
| Bookings.ValidRequestAppends | app/api/bookings/route.ts:17-42 | A valid body appends exactly one booking at the end of its user's list, creating the list if needed. Every other user's list is unchanged. |
| Bookings.PostKeepsFiled | app/api/bookings/route.ts:33-36 | Every list stays non-empty and holds only its own user's bookings, and no list ever shrinks. |
| Bookings.GetAfterPost | app/api/bookings/route.ts:33-69 | After a successful `POST`, a `GET` sees the earlier list followed by the new booking, with a count one higher. |
| Bookings.GetOtherUnaffected | app/api/bookings/route.ts:33-64 | A `POST` does not change any other user's `GET`. |
| Bookings.BookingTable.constructor | app/api/bookings/route.ts:4 | The table starts empty. |
| Bookings.BookingTable.Create | app/api/bookings/route.ts:6-42 | The reply and the new table are those of `Post`, and the filing invariant is kept. |
| Bookings.BookingTable.List | app/api/bookings/route.ts:52-70 | Without `userId` the reply is 400; otherwise it is the stored list or `[]`, with its length. The reply is that of `Get` on the current table, which is not changed. |

## Left out

- The Supabase branch of the verification route (its database calls) is left out. The database is outside the program.
- The `send-otp` route, `sendMockSMS`, the pages and components, and the database setup script are not part of this model.
- The `catch` paths that answer 500 "Internal server error" are not modelled, because every modelled input is well-typed. Examples: a request body that is not JSON, a non-string `phoneNumber`, or a `POST` whose `userId` names an `Object.prototype` property such as `constructor` (the inherited value has no `push`).
- Bookings.Get: the table is a map, so a `userId` that names an inherited property is treated as unknown. In the source a `GET` with `userId=constructor` finds the inherited `Object` function: the reply is a success with `count` 1 and no `data` member.
- Request bodies are modelled as strings (and, for `totalPrice`, a real) or absent. Other JSON values, such as numbers for `userId`, are left out.
- Otp.IsTestPhoneNumber: `phoneNumber in TEST_PHONE_NUMBERS` is also true for inherited property names such as `toString`. The model checks only the three own keys.
- Text.ToLower: lower-cases ASCII only. JavaScript's Unicode case mapping is not modelled.
- TimeSlots.ToNumber: reads only digit strings, optionally signed (the empty string reads as 0). Other forms `Number()` accepts are read as `NaN`. These include surrounding white space, decimals, exponents and hexadecimal.
- Number arithmetic uses exact integers and reals, not IEEE doubles. `Math.floor` of the random draw is exact.
- Rounding and overflow of very large values are not modelled.
- TimeSlots.GenerateTimeSlots: requires `interval > 0`. With zero or a negative interval the source's inner loop never ends.
- TimeSlots.GenerateTimeSlots: takes integer hours and interval. The source also accepts fractional numbers; for example `generateTimeSlots(6, 8, 7.5)` yields `"06:00"`, `"06:7.5"`, `"06:15"` and so on, because `"7.5"` is already longer than two characters. Those are not modelled.
- MockStorage.Store.GetUserById: returns some stored user with the id. It does not model `Map` insertion order, which picks the first such user.
- The route's session is a reference into the store, but the model uses values. The route reads the session only before updating it, so that aliasing does not change the result.
- The `created_at` and `expires_at` `Date` values are kept as millisecond counts. Each clock reading is its own parameter: `createOTPSession` reads the clock twice, and the user created by the verification route reads it again. ISO strings in bookings are passed in as parameters.
- The `console.log` / `console.error` output is left out.
