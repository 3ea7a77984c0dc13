# Loving Homes site: verified model of its logic

This project models the few pieces of real logic inside the Loving Homes website. The site markets a dog hotel, and the rest of it is layout and animation. The model covers:

- **The login page** (`LoginPage` in `App.tsx`). It keeps a client-side account store in two local-storage slots: the list of accounts (`loving_homes_users`) and the current session (`loving_homes_current_user`). Around the store sit the form's field validation, sign-up and sign-in, sign-out, mode switching, restoring the session on mount, the `idle | loading | success` submit status, and the hidden three-click counter.
- **The page lookups** in `App.tsx`. These are the service detail page's `SERVICES.find`, the booking page's `PACKAGES.find`, and the scroll spy, which maps a section id to a `PageState` and lets the last section in view decide.
- **The concierge chat widget** (`components/ChatWidget.tsx`). Its transcript is append-only and starts with a greeting. Submitting is guarded, so only one request is in flight at a time.
- **The concierge service** (`services/geminiService.ts`). It picks the reply string from whether an API key is configured and from how the external call turned out.
- **The cursor trail** (`components/CustomCursor.tsx`). This is a bounded FIFO of paw prints with increasing ids, plus a pressed flag.

The source's own form is kept. Component state that handlers update becomes a class, with methods for the handlers: `Login.Storage`, `Login.LoginPage`, `Chat.ChatWidget` and `Cursor.CustomCursor`. Pure lookups and selections become functions. Each state-changing method states the new state in full. The invariants they keep are:

- distinct stored emails;
- strict user/model alternation of the transcript after the greeting;
- trail ids that increase from oldest to newest;
- a trail of at most 16 points;
- a click counter below three.

Lemmas next to the methods prove the properties that span several calls.

Modules: `Wrappers` (option type), `JsBuiltins` (`Array.prototype.find`, `slice`, `trim`, the `\s` class, `toLowerCase`), `Types` (`types.ts`), `Constants` (`constants.ts`), `App`, `Login`, `GeminiService`, `Chat`, `Cursor`.

The model follows the code in three places a reader might not expect:

- The stored and restored session is the full account record, password included.
- A sign-in password shorter than six characters is stopped by `validate` before the store is read (`Login.ShortPasswordStopsEarly`); a wrong password of valid length gets "Invalid email or password." (`Login.SignInAttempts`).
- The restored session is trusted as stored. It is not checked against the account list (`Login.LoginPage.RestoreSession`).

## Model

| member | source | states |
|---|---|---|
| `JsBuiltins.Find` | App.tsx:370 | `find` returns `undefined` exactly when no element satisfies the predicate; otherwise it returns an element that satisfies it and comes before every other element that does |
| `JsBuiltins.FindOnly` | App.tsx:385 | when exactly one element satisfies the predicate, `find` returns that element |
| `JsBuiltins.Slice` | components/CustomCursor.tsx:26 | `slice(start)` is the suffix of length `min(-start, n)` for a negative start and of length `n - min(start, n)` otherwise |
| `JsBuiltins.TrimStart` | components/ChatWidget.tsx:26 | the leading part of `trim`: the input is a blank prefix followed by the result, and the result is empty or starts with a non-white-space character |
| `JsBuiltins.TrimEnd` | components/ChatWidget.tsx:26 | the trailing part of `trim`: the input is the result followed by a blank suffix, and the result is empty or ends with a non-white-space character |
| `JsBuiltins.Trim` | components/ChatWidget.tsx:26 | `trim` never lengthens its input, and its result is empty or begins and ends with a non-white-space character; `JsBuiltins.TrimIsMiddle` ties the result to the input |
| `JsBuiltins.TrimIsMiddle` | components/ChatWidget.tsx:26 | `s.trim()` is a contiguous part of `s` whose prefix before it and suffix after it are blank: `trim` removes exactly leading and trailing white space |
| `JsBuiltins.TrimEmptyIffBlank` | components/ChatWidget.tsx:26 | `input.trim()` is empty exactly when every character is ECMAScript white space or a line terminator |
| `JsBuiltins.ToLowerCase` | App.tsx:726 | `toLowerCase` keeps the length and maps each character on its own: 'A'–'Z' to 'a'–'z', everything else unchanged |
| `App.FindService` | App.tsx:563 | finds a catalogue service whose id is the route id, and finds none exactly when no service has that id |
| `App.ServiceFoundById` | App.tsx:563 | every service is found under its own id; the ids are distinct |
| `App.ServiceIdsFound` | App.tsx:563 | a service is found exactly for the ids boarding, grooming, training and adventure |
| `App.FindPackage` | App.tsx:629-630 | a missing `package` query parameter finds nothing; otherwise the result is a package with that id, and there is none exactly when no package has that id |
| `App.PackageFoundById` | App.tsx:630 | every package is found under its own id |
| `App.PackageIdsFound` | App.tsx:629-630 | a package is found exactly for the ids daycare, suite, villa and training_camp, and never for a missing parameter |
| `App.CatalogIds` | constants.ts:11-72 | the four services and four packages carry the ids listed above, in order |
| `App.PageListed` | types.ts:25-33 | `Object.values(PageState)` lists every member of the enumeration |
| `App.SectionToPage` | App.tsx:726 | a section that is some page's lower-cased value maps to a page with that value; a section that is no page's lower-cased value maps to HOME |
| `App.LowerSection` | App.tsx:719-726 | each of the six scroll sections is the lower-cased value of the `PageState` member at the same position |
| `App.SectionToPageInverse` | App.tsx:726 | the section→page mapping sends every page's lower-cased value back to that page |
| `App.SectionToPageFallback` | App.tsx:726 | a section that is no page's lower-cased value maps to HOME; any other page is reached only from its own value |
| `App.ScrollSectionPage` | App.tsx:719-726 | the i-th scroll section maps to the i-th page (home→HOME … contact→CONTACT) |
| `App.HandleScroll` | App.tsx:715-731 | off the home route, or with no section spanning the 200px line, the active page stays; otherwise it becomes the page of the last section that spans it |
| `GeminiService.InitClient` | services/geminiService.ts:3-9 | a client exists exactly when `API_KEY` is set and non-empty, and it carries that key |
| `GeminiService.GenerateConciergeResponse` | services/geminiService.ts:11-37 | gives the not-connected fallback without a client; the tail-chasing fallback when the call throws; the model's text verbatim when non-empty; "Woof! I missed that…" for empty or missing text; never the empty string |
| `GeminiService.NoClientNoCall` | services/geminiService.ts:12 | without a client the reply does not depend on the external call |
| `GeminiService.ReplyIsTextOrFallback` | services/geminiService.ts:11-37 | every reply is the model's own non-empty text or one of the three fixed fallbacks: no error escapes |
| `Chat.LastSpeaker` | components/ChatWidget.tsx:26-36 | in a well-formed transcript the model spoke last when nothing is outstanding, and the user spoke last while a reply is awaited |
| `Chat.ChatWidget.constructor` | components/ChatWidget.tsx:9-13 | the transcript starts as the greeting alone, the input is empty, and nothing is loading |
| `Chat.ChatWidget.BeginSubmit` | components/ChatWidget.tsx:24-31 | blank input or a request in flight changes nothing and sends nothing; otherwise it appends exactly one user message with the untrimmed input, clears the input, starts loading, and sends that input; alternation is kept; `Chat.SingleFlight` walks through a second submit refused while a reply is awaited, and a blank one refused afterwards |
| `Chat.ChatWidget.FinishSubmit` | components/ChatWidget.tsx:33-36 | the awaited reply is appended as exactly one model message, loading ends, and whatever was typed meanwhile stays |
| `Chat.ChatWidget.HandleSubmit` | components/ChatWidget.tsx:24-37 | an accepted submit appends exactly the user's message and then one model message with the concierge's reply to that input; a refused submit changes nothing |
| `Cursor.AddTrail` | components/CustomCursor.tsx:25-28 | an append gives the last `min(n, 15)` earlier points in order, then the new point, so at most 16 |
| `Cursor.DropOldest` | components/CustomCursor.tsx:49 | the tick leaves an empty trail empty and otherwise drops exactly the oldest point |
| `Cursor.AddTrailKeepsIdsIncreasing` | components/CustomCursor.tsx:27 | a point that takes the counter's value, followed by a counter increment, keeps ids strictly increasing and below the counter |
| `Cursor.DropOldestKeepsIdsIncreasing` | components/CustomCursor.tsx:49 | the tick keeps ids strictly increasing |
| `Cursor.CustomCursor.constructor` | components/CustomCursor.tsx:6-11 | the pointer starts at (-100, -100), not pressed, with no trail and the counter at zero |
| `Cursor.CustomCursor.MoveCursor` | components/CustomCursor.tsx:19-30 | the pointer moves; when the random gate fires, one point with the old counter value is appended and the counter advances; otherwise trail and counter are unchanged |
| `Cursor.CustomCursor.MouseDown` | components/CustomCursor.tsx:32 | pressing sets the flag |
| `Cursor.CustomCursor.MouseUp` | components/CustomCursor.tsx:33 | releasing clears the flag |
| `Cursor.CustomCursor.Tick` | components/CustomCursor.tsx:47-52 | the interval tick drops the oldest point and keeps the invariants |
| `Login.PlainAddressMatches` | App.tsx:341 | "alex@x.com" matches the email pattern |
| `Login.SurroundedAddressMatches` | App.tsx:341 | the pattern is not anchored: "mail alex@x.com now" matches too, derived from `Login.PlainAddressMatches` and `Login.MatchSurvivesSurroundings` |
| `Login.MatchesEmailPattern` | App.tsx:341 | `/\S+@\S+\.\S+/.test` is defined to hold exactly when some '@' has a non-blank character before it and a '.' at least two places after it, with only non-blank characters between and a non-blank character after; its contract proves that a match needs at least five characters and an '@' with one non-blank character before it and three after it |
| `Login.MatchSurvivesSurroundings` | App.tsx:341 | the pattern is not anchored: any text before or after a matching string still matches |
| `Login.NoAtSignNoMatch` | App.tsx:341 | text without '@' never matches |
| `Login.FieldErrors` | App.tsx:337-353 | an email error exactly when the email is empty ('Email is required') or fails the pattern ('Please enter a valid email address'); a password error exactly when it has fewer than 6 characters ('Password is required' when empty, else 'Password must be at least 6 characters'); a name error exactly when signing up with an empty name; never a form error |
| `Login.ValidIff` | App.tsx:356 | the error map is empty exactly when all field checks pass; in sign-in mode the name never matters |
| `Login.FindByEmail` | App.tsx:370 | finds the first stored account with that email, and none exactly when no account has it |
| `Login.FindByCredentials` | App.tsx:385 | finds the first stored account whose email and password both match exactly, and none exactly when no account matches both |
| `Login.RegisterKeepsEmailsDistinct` | App.tsx:370-378 | appending an account whose email is not stored keeps stored emails pairwise distinct |
| `Login.CredentialsFindTheAccount` | App.tsx:385-388 | with distinct emails, an account's own email and password find exactly that account |
| `Login.WrongPasswordFindsNothing` | App.tsx:385-391 | with distinct emails, an account's email with any other password finds nothing |
| `Login.Storage.constructor` | App.tsx:366 | the two storage slots hold the given accounts and session |
| `Login.LoginPage.constructor` | App.tsx:314-319 | the page starts in sign-in mode with no clicks, an empty form, no errors, idle, and nobody signed in |
| `Login.LoginPage.RestoreSession` | App.tsx:322-327 | on mount a stored session becomes the current user as it is; with none stored nothing changes |
| `Login.LoginPage.HandleEasterEgg` | App.tsx:329-335 | the third click in a row fires the message and resets the counter to 0; other clicks add one; the counter stays below 3 |
| `Login.LoginPage.Validate` | App.tsx:337-357 | the shown errors become exactly the collected field errors, and the result is true exactly when there are none |
| `Login.LoginPage.HandleSubmit` | App.tsx:359-365 | only a valid form sets the status to loading and schedules the storage step, with the mode and form captured; an invalid form leaves the status as it was; storage is not touched |
| `Login.LoginPage.CompleteSubmit` | App.tsx:365-395 | a sign-up with a stored email sets 'This email is already registered.' and idle and changes neither slot nor the user; a fresh email appends the account at the end, stores and sets it as the user, and sets success; a sign-in makes the first account matching email and password exactly the session and the user, with success; with no match it sets 'Invalid email or password.' and idle and changes no slot; distinct emails stay distinct |
| `Login.LoginPage.Logout` | App.tsx:399-405 | the session slot and the current user are cleared, the form is emptied, the status is idle, and sign-in mode is on; errors and accounts are not touched, so a second sign-out changes nothing (`Login.LogoutTwice`) |
| `Login.LoginPage.ToggleMode` | App.tsx:407-412 | the mode flips, and errors, status and form are reset |
| `Login.SignUp` | App.tsx:368-382 | signing up with valid fields on an empty store leaves exactly that account stored and as the session |
| `Login.Reload` | App.tsx:322-327 | a reload restores the stored session, and after a sign-out a reload finds none |

## Left out

- Rendering, framer-motion animation, Tailwind classes, images, and the static pages (Hero, Services, Packages, Gallery, About, Contact): these are presentation only. The catalogue records keep only the fields the lookups and pages use to decide anything. These are the ids, titles, names, prices, features and highlight flags. The descriptions, icons, image URLs, `GALLERY_ITEMS` and `COLORS` are not modelled.
- `components/Navbar.tsx` navigation and scrolling, the hero's scroll buttons and the chat panel's open/close and scroll-to-bottom: these are DOM and router plumbing.
- The contact and booking forms: their buttons have no handlers, so they have no behaviour to model.
- `localStorage` and `JSON.parse`/`stringify`: the two keys are the two fields of `Login.Storage`, not serialised text. A corrupt stored blob, on which `JSON.parse` would throw, is not modelled.
- The one-second `setTimeout` of the login submit is a separate step: `HandleSubmit` returns the captured mode and form, and `CompleteSubmit` runs them. Elapsed time is not modelled.
- The Gemini SDK call, its model name and its system instruction: this is a foreign library. The call is a function parameter from the user's message to an outcome, so only the outcome→reply mapping is modelled.
- The cursor's spring physics: this is floating point. Pointer coordinates are real numbers, not IEEE doubles. `Math.random()` is modelled only through the boolean gate it drives.
- `alert` and `console.error`: these are side-effect output. `HandleEasterEgg` returns whether the alert fires.
- Async interleavings beyond two windows: the chat's awaited reply (`BeginSubmit`/`FinishSubmit`) and the login's delayed callback. React's render batching is taken as "the last update wins".
- Form and chat input `onChange` handlers: they only copy the typed text, so the model assigns the `form` and `input` fields directly.
- `Login.FieldErrors`: does not model JavaScript's UTF-16 string length. A password's length counts Unicode code points, so a password with characters outside the Basic Multilingual Plane can be shorter here than in the browser.
- `JsBuiltins.ToLowerCase`: maps only ASCII letters. The only values it is applied to are the ASCII `PageState` values.
- `App.HandleScroll`: the section geometry is a boolean per section, "exists and spans the line 200 pixels down", not `getBoundingClientRect`.
- `Chat.ChatWidget.FinishSubmit`: requires a request in flight, because it is the continuation of an accepted submit and runs only after one.
