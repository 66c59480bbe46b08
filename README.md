# Portfolio home page — verified model of its logic

The portfolio is a single React page, `HomePage`, plus a `Roadmap` component.
Most of it is markup. This project models in Dafny the parts of it that compute something:

- **Text helpers** (`text.dfy`, module `Text`):
  - `splitName` trims a name and splits it on runs of white space.
  - `truncateText` cuts a description to a length limit, trims the cut part and appends `"..."`.
  - The `technologies` brace strip, `replace(/[{}]/g, "")`.
  - The JavaScript library pieces these rely on: `trim`, `split(/\s+/)`, `toLowerCase`, `includes` and decimal formatting of a count.
- **Payload normalizer** (`payload.dfy`, module `Payload`): the body of `fetchData` after the network round trip.
  - The envelope is validated.
  - The title is rewritten by the keyword rule.
  - A missing or placeholder bio is replaced.
  - The five default lists are substituted all-or-nothing.

  It is a total function, `Receive`, from a response `(ok, optional payload)` to `Failed` or `Success(bundle)`. `NormalizeFields` is the step-by-step overwrite the page performs, and its contract ties it to `Normalize`.
- **Roadmap stats** (`roadmap.dfy`, module `Roadmap`): the four figures of the roadmap section.
  - The `forEach` over experience entries is the loop `ExperienceSpan`, proved against the folds `Earliest` and `LatestEnd`.
  - The year difference is adjusted for month and day.
  - The distinct collaborators form a set.
  - `ComputeStats` builds the four records in their fixed order.
- **View state** (`homepage.dfy`, module `HomePage`): the class `HomePageView`.
  - Its fields are the component's state hooks, the persisted theme, the `data-theme` attribute and the body's scroll lock.
  - Its methods are the event handlers and effects: theme toggle, menu toggle by click or key, menu close, response arrival, the typing interval and the two modals.
  - `Valid()` is the invariant that the handlers keep: the persisted theme matches `isDark`, a loaded profile is well formed, and the typing index stays in range.

`wrappers.dfy` holds the `Option` type.
Dates are `(year, month, day)` triples. Date parsing is a parameter `parse: string -> Option<Date>`, and the current date is a parameter `now`.

The modals share one scroll lock. Both modals write the same `document.body.style.overflow`, so the model has one `scrollLocked` field. The consequence follows from the code: closing the certificate modal unlocks scrolling even while a project modal is open, and opening the project that is already selected does not run the project effect. A reading where each modal has a lock of its own does not match the code, and the model follows the code.

## Model

| member | source | states |
|---|---|---|
| Text.Trim | src/Pages/HomePage.js:14 | The result is empty exactly when the input is all white space. Otherwise it neither starts nor ends with white space. It occurs in the input with only white space before and after it. |
| Text.SplitName | src/Pages/HomePage.js:12-15 | A missing or empty name gives `[]`. An all-white-space name gives `[""]`. Otherwise there is at least one piece, every piece is non-empty and free of white space, and joining the pieces with single spaces gives the trimmed name with its white-space runs collapsed to one space. |
| Text.JoinSplit | src/Pages/HomePage.js:14 | `Split`, the model of `split(/\s+/)`, is characterized here against the independent `Collapse`. Splitting on runs of separators and joining with one space is the same as collapsing every separator run to a single space. |
| Text.SplitPiecesHaveNoSep | src/Pages/HomePage.js:14 | No piece of a split contains a separator. |
| Text.SplitTrimmedNonEmpty | src/Pages/HomePage.js:14 | Splitting a non-empty string that neither starts nor ends with a separator yields no empty piece. |
| Text.CollapseNoSepPrefix | src/Pages/HomePage.js:14 | A separator-free prefix passes through run collapsing unchanged. |
| Text.TruncateText | src/Pages/HomePage.js:17-20 | The limit defaults to `DefaultMaxLength`, 100. A missing or empty text gives `""`. A text within the limit comes back unchanged. A longer text gives the trimmed first `maxLength` characters followed by `"..."`, at most `maxLength + 3` characters long. |
| Text.TruncatedKeepsInfix | src/Pages/HomePage.js:19 | The kept part of a truncated text is a contiguous stretch of its first `maxLength` characters, with no white space at either end. |
| Text.StripBraces | src/Pages/HomePage.js:508 | The result contains no `{` or `}` and is no longer than the input. |
| Text.StripBracesKeepsOthers | src/Pages/HomePage.js:508 | Every character other than a brace occurs in the result as often as in the input. |
| Text.StripBracesAppend | src/Pages/HomePage.js:508 | Stripping distributes over concatenation. |
| Text.StripBracesIdentity | src/Pages/HomePage.js:595 | A brace-free text is left unchanged. |
| Text.StripBracesIdempotent | src/Pages/HomePage.js:508 | Stripping twice is the same as stripping once. |
| Text.ToLower | src/Pages/HomePage.js:91 | The result is as long as the input, and each character is the lower-case form of the input character at the same position. |
| Text.Contains | src/Pages/HomePage.js:91 | True exactly when the pattern occurs in the text at some index. |
| Text.ContainsShift | src/Pages/HomePage.js:91 | When the pattern does not start the text, it occurs in the text exactly when it occurs in the text without its first character. |
| Text.NatToString | src/components/Roadmap.js:49 | The result is a non-empty string of digits. It starts with `0` only for 0, and it has one digit exactly for numbers below 10. |
| Text.DecimalRoundTrip | src/components/Roadmap.js:49 | Reading the decimal string back gives the number. |
| Payload.MissingCharNotContained | src/Pages/HomePage.js:91 | A pattern holding a character that the text lacks does not occur in the text. |
| Payload.NoKeywordWithoutVW | src/Pages/HomePage.js:91 | `HasDeveloperKeyword` is the keyword test of this line. A title without `v`, `V`, `w` or `W` contains neither keyword, whatever its case. |
| Payload.DesignerTitlesHaveNoKeyword | src/Pages/HomePage.js:92-94 | Neither replacement title triggers the keyword rule again. |
| Payload.SeniorTitleHasNoKeyword | src/Pages/HomePage.js:92 | `"Senior Graphic Designer"` contains neither keyword. |
| Payload.NormalizeTitle | src/Pages/HomePage.js:91-95 | A title whose lower-case form contains `"developer"` or `"software"` becomes `"Senior Graphic Designer"`. An absent or empty title becomes `"Graphic Designer"`. Any other title is kept. The result is never empty and never a developer title. |
| Payload.TitleExamples | src/Pages/HomePage.js:91-95 | `"Full Stack Developer"` becomes the senior title, an absent title the plain one, and `"Art Director"` is kept. |
| Payload.NormalizeBio | src/Pages/HomePage.js:97-101 | An absent, empty or `"Lorem impus"` bio becomes the default bio, and any other bio is kept. The result is never empty and never the placeholder. |
| Payload.OrDefault | src/Pages/HomePage.js:104-168 | An absent or empty list becomes the whole fallback. A non-empty list is kept exactly, with no merging. |
| Payload.Normalize | src/Pages/HomePage.js:90-168 | In the profile, normalization touches only the title and the bio; every other profile field is kept. `certificates_data` is passed through untouched and is never defaulted. |
| Payload.NormalizedIsWellFormed | src/Pages/HomePage.js:90-168 | Every normalized bundle has a showable title and bio and five non-empty lists. |
| Payload.WellFormedIsFixedPoint | src/Pages/HomePage.js:103-168 | Normalizing a well-formed bundle again changes nothing: defaults only fill gaps. |
| Payload.NormalizeIdempotent | src/Pages/HomePage.js:90-168 | Normalizing twice is the same as normalizing once. |
| Payload.Receive | src/Pages/HomePage.js:80-176 | The outcome fails exactly when the response is not ok, has no body, or the body has no `profile_data`. Otherwise it is the normalized bundle, which is well formed. |
| Payload.NormalizeProfileFields | src/Pages/HomePage.js:90-101 | The in-place overwrites of title and bio give the profile with the title and bio rules applied and every other field unchanged. |
| Payload.FillList | src/Pages/HomePage.js:104-113 | One list overwrite yields the list rule's result. |
| Payload.NormalizeFields | src/Pages/HomePage.js:90-170 | The field-by-field overwrites, in the page's order, compute exactly `Normalize`. |
| Roadmap.FirstTruthy | src/components/Roadmap.js:20-21 | The JavaScript chain of three alternatives picks the first non-empty one, and is absent exactly when all three are absent or empty. |
| Roadmap.Earliest | src/components/Roadmap.js:17-27 | `Before` is the date comparison `<` and `>` of lines 27-28. Absent exactly when every entry is skipped. Otherwise it is the start of some counted entry, and no counted start is earlier. |
| Roadmap.LatestEnd | src/components/Roadmap.js:17-28 | Absent exactly when every entry is skipped. |
| Roadmap.LatestEndInvalid | src/components/Roadmap.js:21-28 | `StartOf` and `EndOf` model the start and end lookups of lines 20-25. `maxEnd` is an Invalid Date exactly when the first counted entry has an end string that does not parse. |
| Roadmap.LatestEndIsLatest | src/components/Roadmap.js:23-28 | A valid `maxEnd` is the end of a counted entry, and no counted entry has a later valid end. |
| Roadmap.ExperienceSpan | src/components/Roadmap.js:17-29 | The loop leaves `minStart` equal to the earliest counted start and `maxEnd` equal to the latest end, as the folds define them. |
| Roadmap.YearsCountAnniversaries | src/components/Roadmap.js:30-41 | `YearsSpanned` and `YearsOf` are the year computation of these lines. For an end on or after the start, the month/day-adjusted difference counts the anniversaries of the start reached by the end, the start included, so it is at least 1. |
| Roadmap.YearsValueShape | src/components/Roadmap.js:54 | `YearsValue` is the value expression of this line. The years value is a decimal numeral followed by `+`. The numeral reads back as the years when they are positive and as 1 otherwise, and the value is never `"0+"`. |
| Roadmap.NoCountedEntryShowsOnePlus | src/components/Roadmap.js:30-54 | Without a counted entry the years are 0 and show as `"1+"`. |
| Roadmap.InvalidFirstEndShowsOnePlus | src/components/Roadmap.js:21-54 | An unparsable end on the first counted entry makes the years NaN, shown as `"1+"`. |
| Roadmap.OrderedSpanShowsYears | src/components/Roadmap.js:30-54 | When the latest end is not before the earliest start, the years are the anniversary count and show as that number followed by `+`. |
| Roadmap.DefaultExperienceYears | src/components/Roadmap.js:17-54 | The default experience entries, read on 2024-06-01, span 2019-06-01 to 2024-06-01 and show `"6+"`. |
| Roadmap.Companies | src/components/Roadmap.js:44-45 | `CompanyOf` is the name lookup of line 44. A name is in the set exactly when it is the first non-empty one of `company_name`, `company` and `institution` of some entry. The empty name is never counted, and there are at most as many names as entries. |
| Roadmap.DefaultExperienceCompanies | src/components/Roadmap.js:44-45 | The default experience entries name exactly two collaborators. |
| Roadmap.ComputeStats | src/components/Roadmap.js:12-69 | `ExperienceYears` is `years` after lines 17-41. Exactly four records, always in this order: (1) the decimal project count; (2) the years value of the experience entries; (3) the fixed `"95%"`; (4) the decimal count of distinct collaborators. Each has its fixed caption lines. Omitted props count as empty lists, and the education list plays no part. |
| HomePage.ThemeName | src/Pages/HomePage.js:200-206 | The persisted value is exactly `"dark"` or `"light"`, and it is `"dark"` exactly for the dark theme. |
| HomePage.ThemeRoundTrip | src/Pages/HomePage.js:23-26 | `InitialDark` is the initializer of these lines. A persisted theme is read back as the same theme on the next load. |
| HomePage.HomePageView.constructor | src/Pages/HomePage.js:22-34 | The page starts in this state: the theme is dark unless a value other than `"dark"` is saved; the theme and attribute are persisted; the page is loading and visible; and the menu, both modals and the scroll lock are off. |
| HomePage.HomePageView.PersistTheme | src/Pages/HomePage.js:200-206 | Storage and the `data-theme` attribute both hold the current theme's name. |
| HomePage.HomePageView.ToggleTheme | src/Pages/HomePage.js:339 | The theme flips and is persisted. Fetch, typing, menu and modal state are unchanged. |
| HomePage.HomePageView.ToggleNav | src/Pages/HomePage.js:304 | The menu flips. |
| HomePage.HomePageView.HamburgerKey | src/Pages/HomePage.js:59-63 | Enter or Space flips the menu, and any other key leaves it as it is. |
| HomePage.HomePageView.CloseNav | src/Pages/HomePage.js:316-331 | The menu is closed. |
| HomePage.HomePageView.TypingEffect | src/Pages/HomePage.js:182-198 | Typing is running exactly when the profile is loaded and the page visible. When it runs it starts at index 0, and otherwise the index is left as it was. |
| HomePage.HomePageView.ReceiveResponse | src/Pages/HomePage.js:170-176 | `CurrentScreen` is the choice of view at src/Pages/HomePage.js:229-266. Loading ends. The profile is the normalized bundle, or none on failure, and the screen is the page or the error view accordingly. Typing starts exactly on success while visible, at index 0; otherwise the index is left as it was. Theme, menu and modals are unchanged. |
| HomePage.HomePageView.Tick | src/Pages/HomePage.js:188-195 | `Bio` is the bio read at src/Pages/HomePage.js:185. While the index has not passed the bio's end, a tick shows the bio prefix of that length and advances. Past the end, it shows nothing and stops. When typing is not running, nothing changes. |
| HomePage.HomePageView.TypeOut | src/Pages/HomePage.js:187-195 | Running the interval to completion emits every prefix of the bio in order: `bio[..0]`, `bio[..1]`, …, the whole bio. It then stops with the whole bio shown. |
| HomePage.HomePageView.ProjectModalEffect | src/Pages/HomePage.js:216-226 | Scrolling is locked exactly when a project is selected. |
| HomePage.HomePageView.OpenProject | src/Pages/HomePage.js:272 | The project is selected and scrolling is locked, except when the same project was already selected: then no state changes and the effect does not rerun. |
| HomePage.HomePageView.CloseProject | src/Pages/HomePage.js:273 | No project is selected. If one was selected, scrolling is unlocked. |
| HomePage.HomePageView.OpenCertificate | src/Pages/HomePage.js:275-278 | The certificate is selected and scrolling is locked. |
| HomePage.HomePageView.CloseCertificate | src/Pages/HomePage.js:280-283 | No certificate is selected and scrolling is unlocked. |

## Left out

**Effects outside the page's own state**

- The network request and `response.json()` (src/Pages/HomePage.js:66-84) are I/O. The response is an input value: an ok flag and an optional payload. A body that fails to parse is a payload of `None`. A `fetch` that rejects, for example on a network error (src/Pages/HomePage.js:69), never produces a response; the model encodes it as `Response(false, None)`, which `Receive` maps to `Failed`, as the `catch` at src/Pages/HomePage.js:172-176 does.
- Logging in the `catch` block is a side effect with no state the page reads.
- Local storage, the `data-theme` attribute and `document.body.style.overflow` are fields of `HomePageView`, not the browser objects themselves.
- The scroll and resize listeners, the `IntersectionObserver` and the staggered `setTimeout` animation of the roadmap stay outside the model, as do their registration and cleanup. This is event plumbing. A resize is modelled only by its handler, `CloseNav`.
- The real timing of `setInterval(..., 15)` is not modelled. Only the sequence of prefixes the interval emits is, one `Tick` per firing.
- The clean-up of an interval that is still running when the effect reruns is reduced to the `typing` flag being reset.

**JavaScript semantics**

- Date parsing, time zones and time of day are not modelled (UTC parsing of ISO dates against local `getMonth`/`getDate`). `parse` and `now` are parameters, and dates are whole days.
- JavaScript values of other types than string are not modelled: every optional text field is `Option<string>`, and `Project.technologies` is a `string`. The type guards of `splitName` and `truncateText` therefore only meet absent and empty values, and a numeric `start_year` that would be parsed from a number cannot be expressed. The page's behaviour on the three fields that are not guarded:
  - A truthy non-string `title` makes `toLowerCase` throw inside the `try` of `fetchData` (src/Pages/HomePage.js:91). The `catch` (src/Pages/HomePage.js:172-176) then ends loading with no profile, so the error view is shown.
  - A truthy non-string `bio` is kept (src/Pages/HomePage.js:99), and what follows depends on its kind:
    - A number or `true` has no `length`, so the first tick at src/Pages/HomePage.js:189 clears the interval without typing anything.
    - An array has a `length`, so the interval at src/Pages/HomePage.js:188-194 types out array prefixes instead of string prefixes.
    - An object, or an array holding objects, is passed to React as a child in the about section at src/Pages/HomePage.js:453-455 (and, for arrays, through the typed text). React throws on it and the page does not render.
  - An absent, `null` or non-string `technologies` makes the render throw at src/Pages/HomePage.js:508 (and at 595 in the open modal), because `replace` is called on it without a guard.
- `Payload.Receive`: its "fails exactly when" lists only the envelope checks. The extra failure of a truthy non-string title, described above, is outside the model's types.
- Props passed explicitly as `null` are not modelled. The defaults apply to omitted props only, which is what JavaScript default parameters do.
- `Text.ToLower` lower-cases ASCII letters only, because Unicode case mapping is not available. For the title rule this is exact: no character outside ASCII lower-cases to a letter of `"developer"` or `"software"`, so a keyword is found in the page's lower-cased title exactly when it is found in the model's.
- Strings are sequences of characters, not UTF-16 code units. `length`, `slice` and the typing prefixes count characters, and they differ from the page only on characters outside the Basic Multilingual Plane.
- `Roadmap.LatestEnd`: its own contract states only when it is absent. Which end it holds is stated by `LatestEndInvalid` and `LatestEndIsLatest`.
- `Text.Split`: its own contract states only that there is at least one piece. What the pieces are is stated by `JoinSplit`, `SplitPiecesHaveNoSep` and `SplitTrimmedNonEmpty`.

**Rendering and other files**

- `HomePage.HomePageView.OpenProject` compares projects by value, whereas React compares the selected object by reference. Selecting an equal but distinct object does rerun the effect in the page, and the effect only sets the lock again.
- Rendering is not modelled: all markup, icons and Cloudinary URLs, `firstName` (used only in markup) and `isAboutVisible` (set once, read only by markup).
- `src/components/Certificates.js`, `src/components/PenTool.js` and `verification.spec.js` are not part of this model. They are presentation only, a static drawing and a screenshot script.
- `window.location.reload` on the error view is not modelled. It leaves the page.
- `HomePage.HomePageView.HamburgerKey` models the key handler of src/Pages/HomePage.js:59-63 as an event of its own. The menu icon is a `<button>` (src/Pages/HomePage.js:296-306), and the handler does not call `preventDefault`. A browser also turns Enter and Space on a button into a click, so in the page one key press probably toggles the menu twice, leaving it as it was. This follows from reading the code only; the model does not combine the two events.
- The theme, menu and modal methods of `HomePageView` can be called in any state, including the loading and error screens. In the page their buttons exist only after the early returns at src/Pages/HomePage.js:229-266, so the model allows more call sequences than the page does. Every contract still holds for the sequences the page allows.
