# Portfolio site core, modelled in Dafny

The site is a single-page React application: a header, a router and a set of pages. Nearly
all of it is static markup. Three pieces have state, transition rules or input checks, and
this project models them:

- **The contact page** (`Contact.dfy`, module `Contact`).
  - The form's schema trims every input and then runs two checks per field:
    - name: 1 to 100 characters;
    - email: the address format, and at most 255 characters;
    - subject: 1 to 200 characters;
    - message: 10 to 2000 characters.
  - Every failing check yields an issue carrying a fixed message.
  - `FieldErrors` folds the issues into the page's errors record, and a later issue for a field overwrites an earlier one. `CollectFieldErrors` is the same fold as a loop.
  - The class `ContactForm` holds the page's state cells: `formData`, `errors`, `isSubmitting` and `isSubmitted`. Its methods are the page's events:
    - an input change;
    - a submit, split at its simulated delay into `BeginSubmit` and `CompleteSubmit`;
    - the "Send Another Message" button.
  - The class invariant says:
    - the two flags are never both set;
    - every message shown comes from its field's rules;
    - a message is shown only under a field whose current text fails its rule.
- **The header** (`Navigation.dfy`, module `Navigation`).
  - It holds the fixed table of eight links.
  - A link is highlighted when its path equals the current pathname exactly.
  - The class `NavigationState` holds the mobile-menu and "scrolled" cells:
    - `isScrolled` is set only by scroll events, to whether the offset is strictly beyond 50;
    - `isOpen` is flipped by the menu button and closed by any pathname change;
    - the scroll listener is added on mount and removed on unmount.
- **The application shell** (`App.dfy`, module `App`).
  - The route table maps the eight exact paths to their pages, with NotFound for everything else.
  - `AppShell` holds the root's `isLoading` flag, which one boot timer clears. Teardown cancels that timer.
  - `ScrollToTop` scrolls the window to the origin once on mount and once per pathname change.
  - `AppContent` ties the scroll effect, the header and the routed page to one router location.

Three of the source's own parts become explicit values in the model:

- The email grammar is a parameter `isEmail: string -> bool`. The form keeps it as a constant field.
- The notifications and `window.scrollTo` calls are recorded in ghost logs.
- Timers are discrete events, such as `CompleteSubmit` and `TimerElapsed`.

## Model

| member | source | states |
|---|---|---|
| Contact.FormData.Set | src/pages/Contact.tsx:47-48 | the changed input gets the new value; the other three inputs keep theirs |
| Contact.TrimStartSpec | src/pages/Contact.tsx:12 | trimming the start leaves the suffix after a run of whitespace, and that suffix does not start with whitespace |
| Contact.TrimEndSpec | src/pages/Contact.tsx:12 | trimming the end leaves the prefix before a run of whitespace, and that prefix does not end with whitespace |
| Contact.TrimSpec | src/pages/Contact.tsx:12 | `.trim()` yields the infix between a whitespace prefix and a whitespace suffix; it is no longer than the input and has no whitespace at either end |
| Contact.TrimWhitespaceOnly | src/pages/Contact.tsx:12-13 | an input made only of whitespace trims to the empty string |
| Contact.TrimKeeps | src/pages/Contact.tsx:12 | text with no whitespace at either end is unchanged by trimming |
| Contact.TrimIdempotent | src/pages/Contact.tsx:12 | trimming twice is the same as trimming once |
| Contact.Trimmed | src/pages/Contact.tsx:9-30 | the parsed record holds every input trimmed |
| Contact.RunRulesSpec | src/pages/Contact.tsx:10-29 | a field's chain raises at most one issue per check, each about that field, and none exactly when every check passes |
| Contact.TwoRuleIssues | src/pages/Contact.tsx:10-29 | both checks of a field run (no short-circuit): the first check's issue, if it fails, comes before the second check's |
| Contact.FieldIssuesEmptyIff | src/pages/Contact.tsx:9-30 | a field raises no issue exactly when its trimmed text meets its written-out rule (bounds on length; for the email, format and at most 255) |
| Contact.ExpectedError | src/pages/Contact.tsx:63-66 | the message kept for a rejected field is one of that field's rule messages |
| Contact.SchemaCoversAllFields | src/pages/Contact.tsx:9-30 | the schema's field order lists all four fields |
| Contact.IssuesOfEmptyIff | src/pages/Contact.tsx:9-30 | the listed fields raise no issue exactly when each of them is accepted |
| Contact.SafeParseSpec | src/pages/Contact.tsx:9-30 | parsing succeeds exactly when all four fields are accepted; on success every value is the trimmed input; on failure the issue list is non-empty and is the form's issues |
| Contact.BlankFieldRejected | src/pages/Contact.tsx:10-28 | a whitespace-only input is rejected with its first rule's message: "required" for name and subject, the format message for the email (when the grammar rejects ""), "at least 10" for the message |
| Contact.LongMalformedEmail | src/pages/Contact.tsx:15-19 | a malformed email over 255 characters raises two issues, and the record keeps the later one, "Email must be less than 255 characters" |
| Contact.TruthyIffShown | src/pages/Contact.tsx:50 | the truthiness test on an errors value holds exactly for a shown message, not for the cleared "" |
| Contact.FieldErrorsKeys | src/pages/Contact.tsx:62-67 | the collected record has a key for exactly the fields some issue is about |
| Contact.FieldErrorsLastWins | src/pages/Contact.tsx:63-66 | a field's value in the record is the message of the last issue about that field |
| Contact.FieldErrorsAppend | src/pages/Contact.tsx:63-66 | collecting two issue lists in turn merges their records, and the second list wins on shared fields |
| Contact.SingleIssueErrors | src/pages/Contact.tsx:65 | one issue yields a record holding just its field and message |
| Contact.TwoRuleErrors | src/pages/Contact.tsx:63-66 | with two checks on one field, the record holds the second check's message if it fails, else the first's if that fails, else nothing |
| Contact.FieldErrorsOfField | src/pages/Contact.tsx:62-67 | one field's issues give an empty record when the field is accepted, else that field alone with its expected message |
| Contact.IssuesOfErrors | src/pages/Contact.tsx:60-67 | over the listed fields, the record's keys are exactly the rejected fields, each with its expected message |
| Contact.SubmitErrors | src/pages/Contact.tsx:57-68 | after a rejected submit, the record's keys are exactly the fields that fail their rule, each with the message of its last failing check |
| Contact.RejectionMessagesFromRules | src/pages/Contact.tsx:60-68 | every value collected from a failed parse is a shown rule message of its own field, under a field that fails its rule |
| Contact.EmailAndMessageRejected | src/pages/Contact.tsx:60-68 | when name and subject pass and email and message fail, the record has no name or subject key and holds the email's and the message's expected errors |
| Contact.ShortMessageExample | src/pages/Contact.tsx:10-29 | for {"Jo", "jo@x", "Hi", "short"}, name and subject pass, the email fails with the format message (when the grammar rejects "jo@x"), and the message fails with "at least 10 characters" |
| Contact.CollectFieldErrors | src/pages/Contact.tsx:62-67 | the `forEach` loop writing into `fieldErrors` builds exactly the record of the fold `FieldErrors` |
| Contact.ContactForm.constructor | src/pages/Contact.tsx:34-42 | starts with four empty inputs, no errors, both flags false and no notification |
| Contact.ContactForm.HandleChange | src/pages/Contact.tsx:44-53 | stores the value; a shown error under that field becomes "" (the key stays); the other fields' errors, both flags and the notifications are unchanged |
| Contact.ContactForm.BeginSubmit | src/pages/Contact.tsx:55-72 | accepts exactly when parsing succeeds; on acceptance the errors are empty and `isSubmitting` is set; on rejection the errors are replaced wholesale by the collected record and both flags stay false; the inputs are not changed |
| Contact.ContactForm.CompleteSubmit | src/pages/Contact.tsx:75-83 | the delay resolves: `isSubmitting` false, `isSubmitted` true, exactly one "Message Sent" notification appended; inputs and errors unchanged |
| Contact.ContactForm.SendAnother | src/pages/Contact.tsx:171-174 | back to four empty inputs with `isSubmitted` false; the errors record is not touched (and is empty) |
| Navigation.IndexOfPath | src/components/layout/Navigation.tsx:6-15 | scanning the link table returns a link with that path, or -1 only when no link has it |
| Navigation.IndexOfOwnPath | src/components/layout/Navigation.tsx:6-15 | scanning for each link's own path stops at that very link |
| Navigation.NavPathsDistinct | src/components/layout/Navigation.tsx:6-15 | the eight link paths are pairwise distinct |
| Navigation.AtMostOneActive | src/components/layout/Navigation.tsx:61 | two highlighted links for the same pathname are the same link |
| Navigation.ActiveCountFrom | src/components/layout/Navigation.tsx:56-67 | from any position on, the number of highlighted links is 1 if a later link has the pathname and 0 otherwise |
| Navigation.ActiveCountIsListed | src/components/layout/Navigation.tsx:56-67 | exactly one link is highlighted on a listed path, and none on any other path |
| Navigation.HomeOnlyOnRoot | src/components/layout/Navigation.tsx:61 | "Home" is highlighted exactly on "/" and not on "/about", which is highlighted there instead: matching is by equality, not prefix |
| Navigation.NavigationState.constructor | src/components/layout/Navigation.tsx:18-28 | both cells start false and the scroll listener is registered |
| Navigation.NavigationState.Scroll | src/components/layout/Navigation.tsx:23-25 | while listening, `isScrolled` becomes whether the offset is strictly greater than 50; the menu is never changed |
| Navigation.NavigationState.ToggleMenu | src/components/layout/Navigation.tsx:81 | the menu flips; nothing else changes |
| Navigation.NavigationState.LocationChanged | src/components/layout/Navigation.tsx:30-32 | a different pathname closes the menu whatever its state; the same pathname leaves it; `isScrolled` is never changed |
| Navigation.NavigationState.Unmount | src/components/layout/Navigation.tsx:27 | the listener is removed; the cells are unchanged |
| App.LookupSpec | src/App.tsx:42-51 | a page found for a path comes from an entry with that exact path; with no such entry the page is NotFound |
| App.LookupAt | src/App.tsx:42-51 | the first entry with the path decides the page |
| App.PathOf | src/App.tsx:43-50 | the declared path of each routed page is non-empty |
| App.TableAgrees | src/App.tsx:43-50 | the route table and the header's links list the same eight paths in the same order, and each entry's path is the one PathOf gives its page |
| App.RouteIsTable | src/App.tsx:43-51 | each declared path reaches its own page, and a path matching no entry reaches NotFound |
| App.RoutePathOf | src/App.tsx:43-50 | every routed page is reached from its declared path |
| App.PathOfRoute | src/App.tsx:43-51 | a path that reaches a real page is exactly that page's declared path |
| App.PagesDistinct | src/App.tsx:43-50 | the eight routes lead to eight different pages |
| App.NavLinksRouted | src/App.tsx:43-50 | every header link leads to a real page, and the paths that reach a real page are exactly the header's paths |
| App.AppShell.constructor | src/App.tsx:61-66 | `isLoading` starts true with the boot timer pending |
| App.AppShell.TimerElapsed | src/App.tsx:64-66 | a pending timer fires once and clears `isLoading`; a fired or cancelled timer does nothing; once false, `isLoading` never becomes true again |
| App.AppShell.Teardown | src/App.tsx:68 | a pending timer is cancelled, so a later firing has no effect; `isLoading` is unchanged |
| App.ScrollToTop.constructor | src/App.tsx:23-28 | mounting scrolls to (0, 0) once |
| App.ScrollToTop.LocationChanged | src/App.tsx:26-28 | one `scrollTo(0, 0)` is appended exactly when the pathname differs; the invariant keeps one call per distinct consecutive pathname |
| App.AppContent.constructor | src/App.tsx:33-39 | one router location is shared by the scroll effect and the header, with one initial scroll and the menu closed |
| App.AppContent.Navigate | src/App.tsx:33-42 | on a new pathname the menu is closed and exactly one scroll to the origin is made; on the same pathname neither changes; the page shown is the route of the new pathname |

## Left out

- String length is the number of `char`s in the sequence. JavaScript counts UTF-16 code units, so text outside the Basic Multilingual Plane counts twice there.
- The email format check is an uninterpreted predicate `isEmail`, because its regular expression lives inside the validation library. `BlankFieldRejected` and `ShortMessageExample` assume it rejects "" or "jo@x".
- Whitespace for trimming is the concrete ECMAScript WhiteSpace and LineTerminator set that `String.prototype.trim` removes. The `IsWhitespace` predicate spells it out.
- Animation and the concrete delays (1500 ms on submit, 2000 ms at boot) are left out. Each delay is a discrete event: `CompleteSubmit` and `AppShell.TimerElapsed`.
- `toast`, `window.scrollTo` and the scroll listener are foreign calls. They are recorded as the ghost logs `toasts` and `calls` and the flag `listening`. The only toast is "Message Sent", with its fixed description.
- Routing uses exact, case-sensitive string lookup. The router's own matching, which also accepts a trailing slash and ignores case, is not modelled.
- React rendering, batching and `useEffect` scheduling are not modelled; each event updates the state in one step. In the page, the change handler reads the `errors` of the render that raised the event; the model reads the current value.
- The guard `if (err.path[0])` at src/pages/Contact.tsx:64 is not modelled. Every issue from this flat object schema names its field, so the guard always holds.
- A submit whose delay resolves after the page has been left is not modelled. Nor are other state updates on an unmounted component.
- Contact.ContactForm.BeginSubmit: requires the form to be idle (not submitted, not submitting). The source enforces this through the page, not the handler: the form is not rendered once submitted (src/pages/Contact.tsx:149), and the submit button is disabled while submitting (src/pages/Contact.tsx:290).
- Contact.ContactForm.HandleChange: an edit sets the field's error to "" but keeps the key (`Cleared`). So the stricter claim that the record never has a key for a field satisfying its rule does not hold of the code. The invariant the model proves instead: a shown message sits only under a field whose current text fails its rule.
- The messages say "less than 100/200/255/2000 characters", but the checks accept exactly 100, 200, 255 and 2000 characters. The model follows the checks.
- Contact.SafeParse and App.Route only compute. Their meaning is stated by `SafeParseSpec` and by `LookupSpec`, `RouteIsTable`, `RoutePathOf` and `PathOfRoute`.
- These parts are out of scope:
  - the static content pages and the footer;
  - the loading screen's animation, the section headings and the icons;
  - the query-client, tooltip and toaster providers.
