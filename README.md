# Portfolio site: contact form, project filter and hire-request modal

This is a verified model of the three pieces of logic in the portfolio site's
React components. Everything else in the site is markup and animation.

- **Contact form** (`ContactSection`).
  - `validateForm` checks four fields. Name and message must not be blank
    after `trim()`. Email and mobile must also match an anchored regular
    expression.
  - `handleChange` edits one field and clears that field's error.
  - `handleSubmit` validates the form, raises the submitting flag, stores the
    form as a document in the `contacts` collection and reports
    success or failure.
  - The form is the class `ContactForm`. Its fields are the component's
    state: the data, the error map, the flag and the status, plus a ghost
    record of the contents being stored.
  - The two regular expressions are modelled in `TextPatterns`:
    - each language is stated as the strings that some well-formed parts
      render to;
    - a parser into those parts decides the language, proved sound and
      complete;
    - the form's `test` calls are methods that run the parser.
- **Project filter** (`ProjectsSection`). The five seed projects, the three
  category buttons and `filteredProjects`, an order-preserving `Array.filter`
  whose sentinel `All` shows everything. It is modelled as pure functions and
  lemmas.
- **Hire-request modal** (`HireMeSection`). The class `HireMe` has one method
  per event: open, close, field change, submit, the store settling, and the
  two-second reset timer firing. The form has no validation of its own: the
  controls' `required` attributes become the precondition `Filled` on submit.
  The drop-downs can only produce their own option values, each with the
  empty placeholder first.

The store itself (Firestore's `addDoc`) is outside the model:
- submitting returns the document that would be handed to `addDoc`;
- the outcome of the call is a `stored: bool` parameter of `SubmitSettled`;
- the clock (`new Date()`) is a `now` parameter.

Three behaviours of the code are easy to misread:
- `+1 (555) 123-4567` is rejected by the mobile pattern. Only one optional `+`
  and one optional `(` may precede the first three-digit group, so `1 (` is not
  allowed. See `CountryCodeMobileRejected`.
- The two parentheses are optional independently, so `(555 123-4567` is
  accepted (`UnclosedParenthesisAccepted`).
- A contact submission that fails validation leaves the submitting flag and
  the status banner as they were. The validation's early return comes before
  the status is reset to idle.

## Model

| member | source | states |
|---|---|---|
| TextPatterns.LeadingSpace | src/components/ContactSection.tsx:37 | the result is the length of the longest whitespace prefix that `trim()` removes |
| TextPatterns.TrailingSpaceStart | src/components/ContactSection.tsx:37 | the result is where the whitespace suffix that `trim()` removes begins |
| TextPatterns.Trim | src/components/ContactSection.tsx:37-53 | `trim()` returns the part of the value after its whitespace prefix; it neither starts nor ends with whitespace, and only whitespace follows it |
| TextPatterns.TrimEmptyIffBlank | src/components/ContactSection.tsx:37 | `trim()` leaves nothing exactly when every character is JavaScript whitespace |
| TextPatterns.TrimsToEmpty | src/components/ContactSection.tsx:37-39 | `!value.trim()` is true exactly when the value is blank |
| TextPatterns.LocalRun | src/components/ContactSection.tsx:43 | the result is the length of the maximal prefix over `[A-Z0-9._%+-]`, ignoring case |
| TextPatterns.LastDot | src/components/ContactSection.tsx:43 | the result is the position of the last `.`, or -1 when there is none |
| TextPatterns.ParseDomain | src/components/ContactSection.tsx:43 | a domain it accepts is well formed and keeps the given local part |
| TextPatterns.ParseEmail | src/components/ContactSection.tsx:43 | an address it accepts is well-formed parts that render back to exactly the input |
| TextPatterns.LocalRunOf | src/components/ContactSection.tsx:43 | a local part followed by a character outside its class is read back whole |
| TextPatterns.LastDotOf | src/components/ContactSection.tsx:43 | the dot before a dot-free top-level domain is the last dot |
| TextPatterns.ParseDomainOf | src/components/ContactSection.tsx:43 | the domain parser recovers every well-formed domain and top-level domain |
| TextPatterns.ParseRenderEmail | src/components/ContactSection.tsx:43 | the parser recovers every well-formed address from its rendering, so it is complete |
| TextPatterns.EmailLanguage | src/components/ContactSection.tsx:43 | the parser accepts exactly the language of the email pattern |
| TextPatterns.TestEmail | src/components/ContactSection.tsx:43 | the pattern's `test` is true exactly for strings in its language |
| TextPatterns.RenderedEmailOneAt | src/components/ContactSection.tsx:43 | a rendered address has its `@` right after the local part and nowhere else |
| TextPatterns.EmailHasOneAt | src/components/ContactSection.tsx:43 | an accepted address has exactly one `@`, with a non-empty local part before it and at least four characters (domain, dot, two-letter top-level domain) after it |
| TextPatterns.PaddedEmailRejected | src/components/ContactSection.tsx:41-45 | the pattern is anchored, so a leading space makes any string fail it |
| TextPatterns.SimpleEmailAccepted | src/components/ContactSection.tsx:43 | `a@b.com` matches the email pattern |
| TextPatterns.EmailWithoutAtRejected | src/components/ContactSection.tsx:43 | `bad` does not match the email pattern |
| TextPatterns.OneLetterTldRejected | src/components/ContactSection.tsx:43 | `a@b.c` does not match: the top-level domain needs at least two letters |
| TextPatterns.TakeChar | src/components/ContactSection.tsx:49 | the input is the optional character followed by the rest |
| TextPatterns.TakeSeparator | src/components/ContactSection.tsx:49 | the input is an optional separator from `[-\s.]` followed by the rest |
| TextPatterns.ParseLine | src/components/ContactSection.tsx:49 | numbers it accepts are well formed and render back to the input, keeping the prefix already read |
| TextPatterns.ParseGroups | src/components/ContactSection.tsx:49 | numbers it accepts are well formed and render back to the input, keeping the prefix already read |
| TextPatterns.ParseMobile | src/components/ContactSection.tsx:49 | a number it accepts is well-formed parts that render back to exactly the input |
| TextPatterns.TakeCharOf | src/components/ContactSection.tsx:49 | an optional character is read back as it was written |
| TextPatterns.TakeSeparatorOf | src/components/ContactSection.tsx:49 | an optional separator is read back as it was written |
| TextPatterns.ParseLineOf | src/components/ContactSection.tsx:49 | the parser recovers the separators and the last two digit groups of every well-formed number |
| TextPatterns.ParseGroupsOf | src/components/ContactSection.tsx:49 | the parser recovers everything after the optional `+` and `(` of every well-formed number |
| TextPatterns.ParseRenderMobile | src/components/ContactSection.tsx:49 | the parser recovers every well-formed number from its rendering, so it is complete |
| TextPatterns.MobileLanguage | src/components/ContactSection.tsx:49 | the parser accepts exactly the language of the mobile pattern |
| TextPatterns.TestMobile | src/components/ContactSection.tsx:49 | the pattern's `test` is true exactly for strings in its language |
| TextPatterns.DigitCount | src/components/ContactSection.tsx:49 | the number of digits is at most the length |
| TextPatterns.DigitCountAppend | src/components/ContactSection.tsx:49 | digit counts add up over concatenation |
| TextPatterns.DigitCountAllDigits | src/components/ContactSection.tsx:49 | in a string of digits, every character counts |
| TextPatterns.DigitCountNoDigits | src/components/ContactSection.tsx:49 | a string without digits counts zero |
| TextPatterns.AllMobileBodyCharsAppend | src/components/ContactSection.tsx:49 | `+`-free strings over digits, parentheses, `-`, `.` and whitespace are closed under concatenation |
| TextPatterns.RenderedLineShape | src/components/ContactSection.tsx:49 | the three-digit exchange and the subscriber group hold 7 to 9 digits and no `+` |
| TextPatterns.RenderedGroupsShape | src/components/ContactSection.tsx:49 | everything after the optional `+` holds 10 to 12 digits and no `+` |
| TextPatterns.RenderedMobileShape | src/components/ContactSection.tsx:49 | a rendered number holds 10 to 12 digits, has `+` only first, and otherwise only digits, parentheses, `-`, `.` and whitespace |
| TextPatterns.MobileShape | src/components/ContactSection.tsx:47-51 | an accepted mobile number has 10 to 12 digits, a `+` only as its first character, and otherwise only digits, parentheses, `-`, `.` and whitespace |
| TextPatterns.CountryCodeMobileRejected | src/components/ContactSection.tsx:49 | `+1 (555) 123-4567` does not match the mobile pattern |
| TextPatterns.MobileWithAreaCodeAccepted | src/components/ContactSection.tsx:49 | `(555) 123-4567` matches the mobile pattern |
| TextPatterns.MobileWithPlusAccepted | src/components/ContactSection.tsx:49 | `+555.123.456789` matches: a leading `+`, `.` separators and a six-digit last group |
| TextPatterns.UnclosedParenthesisAccepted | src/components/ContactSection.tsx:49 | `(555 123-4567` matches: the two parentheses are optional independently |
| TextPatterns.ShortMobileRejected | src/components/ContactSection.tsx:49 | `123` does not match the mobile pattern |
| ContactSection.With | src/components/ContactSection.tsx:88-90 | the named field takes the new value and the other three keep theirs |
| ContactSection.Validate | src/components/ContactSection.tsx:34-59 | name and message get their "required" error exactly when blank. Email and mobile get an error exactly when they fail their pattern: "required" when blank, "invalid" otherwise |
| ContactSection.AcceptedEmailNotBlank | src/components/ContactSection.tsx:41-45 | an address that passes the pattern is never blank, so "Email is required" and a pattern match exclude each other |
| ContactSection.AcceptedMobileNotBlank | src/components/ContactSection.tsx:47-51 | a number that passes the pattern is never blank |
| ContactSection.ValidateEmptyIff | src/components/ContactSection.tsx:57-58 | the error map is empty exactly when every field passes its rule |
| ContactSection.PaddedEmailReportedInvalid | src/components/ContactSection.tsx:41-45 | a valid address with a leading space draws "Invalid email address", because the pattern is tested on the untrimmed value |
| ContactSection.FormatErrorsOnly | src/components/ContactSection.tsx:34-59 | for a non-blank name and message with a bad email and mobile, the map holds exactly the two "invalid" errors |
| ContactSection.CountryCodeReportedInvalid | src/components/ContactSection.tsx:47-51 | a form whose only fault is the mobile `+1 (555) 123-4567` draws exactly "Invalid mobile number" |
| ContactSection.ContactDocument | src/components/ContactSection.tsx:70-76 | the `addDoc` payload goes to `contacts`, carries the given timestamp and holds each field's value under the field's own name |
| ContactSection.ContactDocumentHoldsForm | src/components/ContactSection.tsx:70-76 | the stored document goes to `contacts` and its keys are exactly the four field names |
| ContactSection.ContactForm.constructor | src/components/ContactSection.tsx:23-32 | the form starts empty, with no errors, not submitting and with an idle status |
| ContactSection.ContactForm.HandleChange | src/components/ContactSection.tsx:88-94 | one field takes the new value and that field's error, if any, is removed. Other errors, the flag and the status are unchanged |
| ContactSection.ContactForm.ValidateForm | src/components/ContactSection.tsx:34-59 | the whole error map is replaced by the validation of the current data, and the result is true exactly when it is empty |
| ContactSection.ContactForm.HandleSubmit | src/components/ContactSection.tsx:61-76 | a form that fails validation is not sent and leaves the flag and status unchanged. A valid one raises the flag, sets the status to idle and yields the document of its four fields |
| ContactSection.ContactForm.SubmitSettled | src/components/ContactSection.tsx:77-85 | success shows the success status and empties the form. Failure shows the error status and keeps the data. The flag comes down either way |
| ProjectsSection.Shown | src/components/ProjectsSection.tsx:74-75 | the filter callback passes every project when `All` is selected, and otherwise exactly the projects whose category equals the selection, compared case-sensitively |
| ProjectsSection.Filter | src/components/ProjectsSection.tsx:74-76 | the result is never longer than the list, and every project in it belongs to the selected category, or the selection is `All` |
| ProjectsSection.FilterCons | src/components/ProjectsSection.tsx:74-76 | the filter keeps or drops the first project by the category test, then filters the rest |
| ProjectsSection.FilterAll | src/components/ProjectsSection.tsx:74-75 | selecting `All` shows the full list |
| ProjectsSection.FilterMembers | src/components/ProjectsSection.tsx:74-76 | a project is shown exactly when it is in the list and passes the category test |
| ProjectsSection.ShownPositionsEmbed | src/components/ProjectsSection.tsx:74-76 | the positions of the shown projects increase strictly and pick out the result from the list |
| ProjectsSection.FilterIsSubsequence | src/components/ProjectsSection.tsx:74-76 | the result is a subsequence of the list, so the original order is kept |
| ProjectsSection.FilterIdempotent | src/components/ProjectsSection.tsx:74-76 | filtering a filtered list by the same category changes nothing |
| ProjectsSection.FilterMissingCategory | src/components/ProjectsSection.tsx:75 | a category that no project has, other than `All`, shows nothing |
| ProjectsSection.FilterPartition | src/components/ProjectsSection.tsx:74-76 | when every project has one of two categories, the two results together are the list, as a multiset and in length |
| ProjectsSection.FilterConcat | src/components/ProjectsSection.tsx:74-76 | filtering a concatenation concatenates the filtered parts |
| ProjectsSection.FilterFive | src/components/ProjectsSection.tsx:74-76 | a five-project list is filtered project by project |
| ProjectsSection.SeedIds | src/components/ProjectsSection.tsx:15-66 | the seed ids are 1 to 5 in order, and they are pairwise distinct |
| ProjectsSection.SeedCategories | src/components/ProjectsSection.tsx:15-68 | every seed project's category is one of the non-`All` buttons, `Web App` or `Full Stack` |
| ProjectsSection.FullStackShowsOne | src/components/ProjectsSection.tsx:15-76 | `Full Stack` shows only the e-commerce project, id 2 |
| ProjectsSection.WebAppShowsFour | src/components/ProjectsSection.tsx:15-76 | `Web App` shows ids 1, 3, 4 and 5, in that order |
| ProjectsSection.LowerCaseShowsNothing | src/components/ProjectsSection.tsx:75 | `web app` shows nothing, because the comparison is case-sensitive |
| ProjectsSection.SeedPartition | src/components/ProjectsSection.tsx:15-76 | the `Web App` and `Full Stack` results together are the whole seed list |
| HireMeSection.With | src/components/HireMeSection.tsx:104-107 | the named field takes the new value and the other five keep theirs |
| HireMeSection.HireDocument | src/components/HireMeSection.tsx:79-82 | the `{ ...formData, timestamp }` payload goes to `hire-requests`, carries the given timestamp and holds each field's value under the field's own name |
| HireMeSection.HireDocumentHoldsForm | src/components/HireMeSection.tsx:79-82 | the stored document goes to `hire-requests` and its keys are exactly the six field names |
| HireMeSection.OptionSets | src/components/HireMeSection.tsx:272-315 | each drop-down has the empty placeholder first, then 8, 6 and 5 distinct non-empty values |
| HireMeSection.EmptyHireChoices | src/components/HireMeSection.tsx:63-70 | the empty form holds each drop-down's placeholder, so it is not complete |
| HireMeSection.SampleRequestComplete | src/components/HireMeSection.tsx:272-315 | `webapp`, `small` and `normal` are options of their drop-downs |
| HireMeSection.HireMe.constructor | src/components/HireMeSection.tsx:62-72 | the modal starts closed, the form empty, not submitting and with an idle status |
| HireMeSection.HireMe.Open | src/components/HireMeSection.tsx:192 | the modal opens, and nothing else changes |
| HireMeSection.HireMe.Close | src/components/HireMeSection.tsx:216-230 | the modal closes, and the form and status are kept |
| HireMeSection.HireMe.HandleChange | src/components/HireMeSection.tsx:104-107 | one field of the six takes the new value, and no other state changes |
| HireMeSection.HireMe.HandleSubmit | src/components/HireMeSection.tsx:74-82 | on a complete form with no call in flight, the flag goes up and the status is not reset. The result is the document of the six fields |
| HireMeSection.HireMe.SubmitSettled | src/components/HireMeSection.tsx:83-101 | success shows the success status and schedules a reset. Failure shows the error status. The flag comes down, and the modal and data are untouched |
| HireMeSection.HireMe.TimerFires | src/components/HireMeSection.tsx:84-95 | a scheduled reset closes the modal, empties all six fields and returns the status to idle |
| HireMeSection.FillSample | src/components/HireMeSection.tsx:104-107 | typing the sample request control by control leaves exactly that request in the form |

## Left out

- Firestore's `collection` and `addDoc`: network I/O. Submitting returns the
  document that would be stored, and the outcome is a parameter.
- `new Date()`: the clock is a `now` parameter. `console.error` is not modelled.
- `async`/`await` and `setTimeout`:
  - a call settling and the reset timer firing are discrete events, with no
    interleaving;
  - the two-second delay is not modelled;
  - `HireMe.pendingResets` counts the timers scheduled by successful stores
    that have not fired yet.
- The browser's constraint validation:
  - the hire form's `required` attributes are the `Filled` precondition of
    `HireMe.HandleSubmit`;
  - the disabled submit buttons (`disabled={isSubmitting}`) are the
    `!isSubmitting` preconditions;
  - the hire form is only rendered while the modal is open, which is the
    `isModalOpen` precondition of its handlers;
  - the sanitising and checking that `type="email"` inputs do in the browser
    is not modelled, on either form.
- ContactSection.ContactForm.HandleChange: `errors[name] = undefined` is
  modelled as removing the key. The component only tests an error for
  truthiness, so the two cannot be told apart.
- JavaScript strings are UTF-16 code units; the model's strings are sequences
  of characters. Both `trim()` and the pattern's `\s` use the fixed ECMAScript
  WhiteSpace and LineTerminator set.
- Rendering: JSX, framer-motion animation, Tailwind classes, the project hover
  state (`hoveredProject`), the social links, the `services` cards and the
  `mailto:` link built with `encodeURIComponent`.
- Nothing in `HeroSection.tsx`, `AboutSection.tsx`, `SocialLinks.tsx`,
  `Footer.tsx` or `App.tsx` is modelled. They hold static data, third-party
  rendering and a read of the current year.
