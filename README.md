# BTA bus-tracker client: verified model of its logic

BTA is a React Native client for a bus-tracking service. Most of it is screens
and HTTP calls. This project models the five pieces of sequential logic in it
and proves what they do:

- **Arrival-time labels** (`app/helpers/eta.ts`, module `Eta`). `formatETA`
  turns minutes into a label. `calculateETA` checks for standstill and then
  computes minutes from km and km/h. `calculateETASmart` first guesses whether
  the speed is km/h or m/s. All of this is over exact reals, and `Math.round`
  is `(x + 0.5).Floor`. Labels are the datatype `Eta`, and `Text` renders one
  as the string the app shows.
- **Bus colours** (`helpers/busColor.ts`, module `BusColor`). A loop writes
  `baseColors[index % 10]` into an object keyed by bus id. JavaScript turns
  every object key into a string, so `PropertyKey` maps an id to its key, and
  the number 7 and the string "7" collide.
- **Address hook** (`hooks/useAddress.ts`, module `AddressHook`). This is the
  class `AddressLookup`. It keeps the remembered coordinate pair, the address
  shown, and one `Lookup` record per effect run that called `fetchAddress`.
  Each record has its own `isCancelled` flag. It has three events: a render
  with a pair (`OnCoords`), a lookup completing (`OnResult`) and unmounting
  (`OnUnmount`).
- **Reverse geocoding** (`app/services/geocodingService.ts`, module
  `Geocoding`). Each of the three platform calls either returns a value or
  throws, and that outcome is an input. `FetchAddress` gives the returned
  text and the calls it made.
- **Auth session** (`contexts/AuthContext.tsx`, module `Auth`). This is the
  class `AuthSession`. It holds `user`, `token` and `loading`, plus the secure
  store as a map. The HTTP reply and each store call's outcome are inputs. A
  ghost log records state updates and store calls in order, which is how the
  ordering contracts are stated.
- `Decimal` holds integer-to-text conversion, shared by the modules above.
  `Wrappers` holds `Option`.

Three behaviours of the code are worth spelling out:

- `formatETA` shows "1 min" for every value in [1, 2). Values from 1.5 up to
  2 are not rounded up to 2.
- `logout` stops at the first failed deletion. If deleting "user" fails,
  `Logout` leaves the store unchanged, so the next start restores both user
  and token (`RestoreAfterSignIn`, `FailedLogoutSignsBackIn`). If deleting
  "token" fails, the token alone is restored (`RestoreAfterPartialLogout`).
- When a lookup fails, the address hook shows the service's fixed message
  text, not the coordinates.

## Model

| member | source | states |
|---|---|---|
| `Eta.RoundHalfUp` | app/helpers/eta.ts:21 | `Math.round` gives the integer `n` with `n - 0.5 <= x < n + 0.5` (halves go up) |
| `Eta.FormatEta` | app/helpers/eta.ts:17-22 | "Arriving now" exactly when minutes are <= 0; "< 1 min" exactly for (0, 1); "1 min" exactly for [1, 2); from 2 up, the nearest whole minute (at least 2) with halves rounded up; never "Not moving" |
| `Eta.TravelMinutes` | app/helpers/eta.ts:33-34 | the minutes `m` satisfy `m * speed == distance * 60` |
| `Eta.CalculateEta` | app/helpers/eta.ts:25-39 | "Not moving" exactly when speed <= 0; otherwise the label of the travel minutes; "Arriving now" for a non-positive distance at positive speed and never for a positive distance |
| `Eta.EffectiveSpeedKmh` | app/helpers/eta.ts:47-67 | speed >= 30 is kept; speed < 10 on a trip under 0.5 km is kept; any other speed below 30 is multiplied by 3.6; the result is never below the raw speed |
| `Eta.CalculateEtaSmart` | app/helpers/eta.ts:42-74 | "Not moving" exactly when speed <= 0, whatever the distance; otherwise the label of the travel minutes at the guessed km/h |
| `Eta.FormatEtaMonotone` | app/helpers/eta.ts:17-22 | more minutes never give a shorter label |
| `Eta.TravelMinutesAntitone` | app/helpers/eta.ts:69-70 | for a non-negative distance, a higher speed never gives more minutes |
| `Eta.SmartNeverLater` | app/helpers/eta.ts:42-74 | for every distance and speed, the smart variant's label never shows a longer wait than `calculateETA`'s |
| `Eta.SmartAgreesOnKmh` | app/helpers/eta.ts:51-67 | where the speed is taken as km/h, both variants give the same label |
| `Eta.SmartConvertsMetresPerSecond` | app/helpers/eta.ts:58-61 | everywhere else below 30, the smart variant equals `calculateETA` at speed × 3.6 |
| `Eta.TextInjective` | app/helpers/eta.ts:18-21 | two different labels never render as the same string |
| `Eta.Samples` | app/helpers/eta.ts:17-38 | 0, 0.5 and 2.4 minutes show "Arriving now", "< 1 min", "2 min"; 5 km at speed 0 is "Not moving"; 10 km at 20 km/h is "30 min" |
| `Decimal.ParseNatToString` | app/helpers/eta.ts:21 | the digits interpolated for a whole minute count read back as that count |
| `Decimal.IntToStringInjective` | helpers/busColor.ts:9 | different whole-number ids become different property keys |
| `BusColor.PropertyKey` | helpers/busColor.ts:9 | a string id is its own key; a numeric id's key is non-empty and starts with "-" exactly when the id is negative |
| `BusColor.PropertyKeyReadsBack` | helpers/busColor.ts:9 | a numeric id's key, after any minus sign, is all digits and reads back as the id's absolute value |
| `BusColor.GenerateBusColors` | helpers/busColor.ts:1-13 | the loop's record equals the left-to-right fold `ColorsOf`; its keys are exactly the buses' keys; every value is a palette colour |
| `BusColor.ColorsOfKeys` | helpers/busColor.ts:8-10 | the record has an entry for exactly the keys of the listed buses |
| `BusColor.ColorsOfInPalette` | helpers/busColor.ts:3-9 | every assigned colour is one of the ten palette entries |
| `BusColor.LastOccurrenceWins` | helpers/busColor.ts:8-10 | a repeated id gets the colour of its last position in the list |
| `BusColor.ColorOfDistinct` | helpers/busColor.ts:9 | with distinct ids, the bus at index `i` gets `baseColors[i % 10]` |
| `BusColor.ColorRepeatsEveryTen` | helpers/busColor.ts:9 | with distinct ids, buses at `i` and `i + 10` share a colour |
| `BusColor.PaletteDistinct` | helpers/busColor.ts:3-6 | the ten palette entries are pairwise different |
| `BusColor.WindowOfTenDistinct` | helpers/busColor.ts:4-9 | with distinct ids, any two buses fewer than ten places apart get different colours |
| `BusColor.NoBusesNoColors` | helpers/busColor.ts:2-12 | an empty list gives an empty record |
| `BusColor.NumericAndTextIdsCollide` | helpers/busColor.ts:8-10 | ids 7 and "7" share one entry, which gets the later bus's colour |
| `Geocoding.FetchAddress` | app/services/geocodingService.ts:3-28 | permission is asked first; a status other than "granted" gives "Location permission denied" and no further call; the reverse lookup runs, with the given coordinates, exactly when permission is granted and enabling the provider did not throw; any throw gives "Unable to get address"; an empty result gives "No address found"; a found place gives its formatted line; the text is never empty |
| `Geocoding.FormattedIsNoMessage` | app/services/geocodingService.ts:8-26 | a formatted place always holds a comma and differs from all three fixed messages |
| `Geocoding.FormatPlaceSplits` | app/services/geocodingService.ts:20 | if no field holds a comma, splitting the line at commas gives "name street" and the city, region and country (missing fields are ""), each after one space |
| `AddressHook.Shown` | hooks/useAddress.ts:26 | an empty result shows "Unknown location"; any other result is shown as it is |
| `AddressHook.GeocoderAnswerShownAsIs` | hooks/useAddress.ts:25-26 | a `fetchAddress` answer is never empty, so it is shown unchanged |
| `AddressHook.AddressLookup.constructor` | hooks/useAddress.ts:6-9 | starts with "N/A", no remembered pair and no lookup |
| `AddressHook.AddressLookup.Live` | hooks/useAddress.ts:22-33 | the live lookup, when there is one, is the newest; when there is none, every lookup is cancelled |
| `AddressHook.AddressLookup.OnCoords` | hooks/useAddress.ts:11-34 | an unchanged pair changes nothing and starts nothing; a changed pair cancels every earlier lookup and is remembered; a missing coordinate sets "N/A" and starts nothing; otherwise one new lookup for the pair starts, becomes live, and leaves the address unchanged; at most one lookup is live, and it is for the remembered pair |
| `AddressHook.AddressLookup.OnResult` | hooks/useAddress.ts:24-27 | a cancelled lookup's result leaves the address unchanged; the live lookup's result sets the address to `Shown(result)`; the lookup is marked settled |
| `AddressHook.AddressLookup.OnUnmount` | hooks/useAddress.ts:31-33 | the cleanup cancels every lookup, so no later result changes the address |
| `Auth.UserRoundTrip` | contexts/AuthContext.tsx:84 | the stored form of a user parses back to the same user |
| `Auth.FailureText` | contexts/AuthContext.tsx:42 | the server's text when present and non-empty, otherwise the fallback; never empty |
| `Auth.Restore` | contexts/AuthContext.tsx:79-91 | a user is restored exactly when both reads succeed and a non-empty stored user parses, and it is the parsed one; a token is restored exactly when both reads succeed, a non-empty token is stored and the stored user (if any) parses, and it is the stored token |
| `Auth.RestoreAfterSignIn` | contexts/AuthContext.tsx:46-47 | what a complete sign-in wrote is restored at the next start (except an empty token) |
| `Auth.RestoreAfterLogout` | contexts/AuthContext.tsx:69-70 | after both deletions nothing is restored |
| `Auth.RestoreAfterPartialLogout` | contexts/AuthContext.tsx:69-74 | if "user" was deleted but deleting "token" failed, the next start restores the token without a user |
| `Auth.AuthSession.constructor` | contexts/AuthContext.tsx:31-33 | user and token start null and loading starts true, over the existing store |
| `Auth.AuthSession.SignIn` | contexts/AuthContext.tsx:44-47 | memory gets user and token first; then "user" is written, then "token"; a failed "user" write rejects and leaves the store unchanged, with "token" never written |
| `Auth.AuthSession.Login` | contexts/AuthContext.tsx:35-48 | sends the email and password; an unreachable or non-ok reply rejects (with the server's `error` or "Login failed") and changes neither memory nor store; an ok reply signs in as `SignIn` states; `loading` is untouched |
| `Auth.AuthSession.Register` | contexts/AuthContext.tsx:50-63 | always sends role "user"; a non-ok reply rejects with the server's `message` or "Registration failed" and changes nothing; an ok reply signs in as `SignIn` states |
| `Auth.AuthSession.Logout` | contexts/AuthContext.tsx:65-76 | user and token become null before the store is touched, whatever the store does; "user" is deleted, then "token"; returns true iff both deletions succeed; a failed "user" deletion leaves "token" in place |
| `Auth.AuthSession.Rehydrate` | contexts/AuthContext.tsx:79-92 | ends with `loading` false whatever fails, and its last state update is exactly that; sets user and token only as `Restore` finds them; never changes the store |

## Left out

- `haversineDistance` (app/helpers/eta.ts:1-15) is left out. It is trigonometric floating-point code with nothing exact to prove.
- Floating point is left out. Distances, speeds and minutes are exact reals, so rounding error of doubles is not modelled.
- `calculateETA` and `calculateETASmart` also treat a NaN or missing speed as "Not moving" (via `!speed`). A real is never NaN or missing, so that case is not modelled.
- The `console.log` and `console.error` calls are left out. They do not affect results.
- `BusColor.PropertyKey` covers whole-number ids only. JavaScript's text for other numbers (for example `1.5` or `1e21`) is not modelled.
- `BusColor.GenerateBusColors` does not model the string id "__proto__". In the source's plain `{}`, assigning that key calls the inherited prototype setter. That setter ignores a string value, so the object gets no own entry. The model gives that id an entry like any other key.
- `bus_name` is carried but unused, as in the source.
- `AddressHook.AddressLookup.OnCoords` compares coordinates with `==` on reals. The two cases where JavaScript's `===` and React's `Object.is` disagree (NaN, and 0 against -0) are not modelled.
- React's render and effect scheduling is reduced to the three events in the order React delivers them.
- `Auth.UserRoundTrip` is stated for an injective length-prefixed encoding that stands in for `JSON.stringify` and `JSON.parse`. JSON's syntax is not modelled. Neither is `JSON.parse` returning a non-user value such as `null`.
- The auth model assumes an ok reply always holds a user and a token. A malformed ok reply, and a `SecureStore` write of a missing token, are not modelled.
- An await in one auth operation can interleave with another operation, for example a login while rehydration is still reading. Each method here runs start to finish, so such interleavings are not modelled.
- The default context value and `useAuth` (contexts/AuthContext.tsx:21-28, 101) are left out. They are React wiring with no logic.
- `API_URL`, request headers and JSON bodies are reduced to the `Request` value each method returns.
- `app/hooks/useBusTracking.ts` is left out. All of its code is commented out.
- `app/services/expenseService.ts` is left out. It is authenticated HTTP plumbing.
- The dashboard's tracking reconciliation, polling, nearest-stop search and map centring are not part of this model.
- Screens, components, layouts and styling are not part of this model.
