# Kiosk input handling, verified in Dafny

The kiosk in `convertupload_headless.py` plays a clip while a video editor
renders an enhanced version in the background. Meanwhile it walks the visitor
through a linear wizard (email, then phone, then a star rating, then send),
and finally uploads the clip and mails the link to the visitor's address and
to four carrier email-to-SMS gateways. This project models the part of that
program that is plain logic:

- the on-screen keypads and what each key does to the text being typed
  (`_email_key`, `_phone_key`), over the exact key labels laid out on screen;
- the two validators, `is_valid_email` (a start-anchored match of
  `[^@]+@[^@]+\.[^@]+`) and `is_valid_phone` (`^\d{10}$`), and Python's
  `str.strip()` that is applied before them;
- the wizard's session fields and screen handlers (`_email_next`,
  `_phone_next` with its gateway address list, `_set_rating` with its loop
  over the stars, the guard of `_on_send`), and the render-finished flag, which
  only ever goes from false to true;
- the console progress bar `show_progress` and the render-monitor loop of
  `headless_render`, which redraws the bar only when the reported value changes
  and stops at the first poll where rendering is not in progress.

Modules, one per concern:

- `options.dfy`: `Options`, the `Option` datatype for fields that start as `None`.
- `text.dfy`: `Text`, with `str.isspace` (the full set of characters Python
  treats as whitespace), `strip()`, ASCII digits and `s[:-1]`.
- `validators.dfy`: `Validators`, with `IsValidEmail` computed as the kiosk
  needs it, the regular-expression match as a separate ghost definition, and
  the proof that the two agree; `IsValidPhone` with Python's `$`.
- `keypads.dfy`: `Keypads`, with the key labels, the pure one-key transitions
  `EmailKeyStep` / `PhoneKeyStep`, and lemmas about sequences of key presses.
- `progress.dfy`: `Progress`, with the clamp, the filled-cell count, the bar,
  the printed line and `MonitorRender`, a method with a loop over an abstract
  sequence of `(running, progress)` polls.
- `wizard.dfy`: `Wizard`, with the carrier table, the star row, and the class
  `Session`. The class holds the application object's fields: the two keypad
  fields, the screen, the recipients, the rating, the star glyphs, the send
  button state, and the render flag and output path. Its methods are the
  screen handlers. Each one changes only the fields its `modifies` clause
  names and keeps the invariant `Valid()`.

`Valid()` records what the on-screen keypads and the wizard's screens guarantee
at each screen, for fields filled from the on-screen keys:

- the phone field holds at most ten ASCII digits;
- the email field holds no whitespace;
- the rating is in 0..5;
- the send button is enabled only if the render has finished and the rating
  is non-zero;
- after the email screen, the stored address is the stripped field and it
  passes the email check;
- after the phone screen, the SMS list is exactly the four gateway addresses
  of the stripped phone field;
- on the rating and sending screens, the star glyphs show the rating;
- the sending screen is reached only with the render finished and a rating
  given.

Two behaviours of the program that the model keeps:

- The send button is refreshed only by `_set_rating`. A visitor who rates
  before the render has finished therefore still sees a disabled button after
  it finishes.
- The kiosk's `DarkButton` calls its command from a mouse-release binding,
  and such a binding fires whatever the button's state is. A "disabled"
  send button therefore still calls `_on_send`, and only that handler's own
  check (`conversion_done and rating`) decides whether the upload starts.
  `Session.OnSend` accordingly does not require the button to be enabled.
  `Wizard.RateBeforeRenderFinishes` walks through both behaviours using only
  the methods' contracts.

## Model

| member | source | states |
|---|---|---|
| `Text.IsSpace` | convertupload_headless.py:465 | definition of `str.isspace()` for one character: the 29 characters Python treats as whitespace, which `strip()` removes; its role in stripping is fixed by `Text.Strip`'s contract |
| `Text.DropLast` | convertupload_headless.py:458 | `cur[:-1]`: the empty string stays empty; otherwise the result followed by the last character is the input, so exactly the last character is removed |
| `Text.Strip` | convertupload_headless.py:465 | `strip()`: the result is a contiguous part of the input, everything removed before and after it is whitespace, and the result neither starts nor ends with whitespace |
| `Text.StripNoSpace` | convertupload_headless.py:494 | text with no whitespace (such as keypad input) is unchanged by `strip()` |
| `Text.StripIdempotent` | convertupload_headless.py:465 | stripping twice equals stripping once |
| `Validators.IsValidEmail` | convertupload_headless.py:374 | definition: a first '@' with a non-empty name before it, then a '.' with a character on each side before the next '@' or the end; equal to the start-anchored match of the pattern by `Validators.EmailValidIffMatch` |
| `Validators.IsValidPhone` | convertupload_headless.py:375 | definition: ten ASCII digits, alone or followed by one newline (Python's `$`); equal to "ten digits" on stripped input by `Validators.PhoneValidIffTenDigits` |
| `Validators.ValidEmailMatches` | convertupload_headless.py:374 | when the computed email check accepts, some prefix of the input matches `[^@]+@[^@]+\.[^@]+` |
| `Validators.MatchIsValidEmail` | convertupload_headless.py:374 | when some prefix of the input matches the pattern, the computed email check accepts |
| `Validators.EmailValidIffMatch` | convertupload_headless.py:374 | the email check holds if and only if a prefix of the input matches the pattern (start-anchored, not end-anchored) |
| `Validators.EmailAllowsTrailingText` | convertupload_headless.py:374 | any text appended to an accepted email keeps it accepted, because the match is not anchored at the end |
| `Validators.AddressIsValidEmail` | convertupload_headless.py:374 | `local@host.domain` is accepted whenever the three parts are non-empty and contain no '@' |
| `Validators.EmailTrailingExamples` | convertupload_headless.py:374 | `a@b.c`, `a@b.c@x` and `a@b.c d` are accepted |
| `Validators.EmailRejectedExamples` | convertupload_headless.py:374 | an empty name, host or domain, a missing dot, or a doubled '@' is rejected |
| `Validators.PhoneValidIffTenDigits` | convertupload_headless.py:375 | on input that does not end in whitespace, the phone check accepts exactly the strings of ten digits |
| `Validators.PhoneExamples` | convertupload_headless.py:375 | ten digits are accepted, as are ten digits followed by a newline (Python's `$`); nine digits, eleven digits, or a non-digit are rejected |
| `Keypads.IsPhoneKey` | convertupload_headless.py:477 | definition: a label in one of the phone keypad's four rows; characterised by `Keypads.PhoneKeysAreDigitsBackDel` |
| `Keypads.IsEmailKey` | convertupload_headless.py:447 | definition: a label in one of the email keyboard's six rows; characterised by `Keypads.EmailKeysAreExactly` |
| `Keypads.PhoneKeysAreDigitsBackDel` | convertupload_headless.py:477 | a label is on the phone keypad if and only if it is `Back`, `Del` or a single ASCII digit |
| `Keypads.EmailKeysAreExactly` | convertupload_headless.py:447 | a label is on the email keyboard if and only if it is `Backspace`, one of the three providers, or a single lower-case letter, ASCII digit, '@' or '.' |
| `Keypads.PhoneKeyStep` | convertupload_headless.py:484-491 | `Del` yields the empty field; `Back` removes exactly the last character and leaves an empty field empty; a digit key is appended only while the field is shorter than ten; every other key changes nothing |
| `Keypads.EmailKeyStep` | convertupload_headless.py:455-462 | `Backspace` removes exactly the last character; a provider key appends `'@' + k + '.com'` only when the text has no '@', and otherwise appends its label; every other key appends itself |
| `Keypads.PhoneKeyKeepsFieldOk` | convertupload_headless.py:484-491 | one phone key keeps a field of at most ten digits at most ten digits |
| `Keypads.PhoneKeysKeepFieldOk` | convertupload_headless.py:484-491 | any sequence of phone keys, starting from at most ten digits, keeps the field at most ten characters, all digits |
| `Keypads.TypingDigitsFillsToTen` | convertupload_headless.py:490-491 | typing a run of digits gives the first ten characters of the old field followed by those digits; further digits are ignored |
| `Keypads.BackUndoesDigit` | convertupload_headless.py:488-491 | `Back` undoes a digit that was accepted |
| `Keypads.TypingCharsAppends` | convertupload_headless.py:461-462 | pressing the character keys of a string appends exactly that string |
| `Keypads.EmailKeyKeepsNoSpace` | convertupload_headless.py:447-462 | no email key adds whitespace to the field |
| `Keypads.EmailKeysKeepNoSpace` | convertupload_headless.py:447-462 | a field typed on the email keyboard never contains whitespace, so `strip()` leaves it unchanged |
| `Keypads.ProviderShortcutGivesValidEmail` | convertupload_headless.py:459-460 | a provider shortcut after a non-empty name without '@' yields an address the email check accepts |
| `Progress.Clamp` | convertupload_headless.py:145 | the result lies in 0..100, equals the input inside that range, and is 0 below it and 100 above it |
| `Progress.FilledCells` | convertupload_headless.py:146 | the filled count `f` is at most 30 and is the floor of `30 * pct / 100`: `100 f <= 30 pct < 100 (f + 1)` |
| `Progress.FilledCellsMonotone` | convertupload_headless.py:145-146 | a larger percentage never fills fewer cells |
| `Progress.FilledCellsBounds` | convertupload_headless.py:145-146 | all 30 cells are filled if and only if the percentage is at least 100; none is filled if and only if it is below 4 |
| `Progress.ProgressBar` | convertupload_headless.py:147 | the bar has exactly 30 cells: the first `FilledCells(pct)` are full blocks and the rest are dots |
| `Progress.BarShowsFilledCells` | convertupload_headless.py:147 | counting the full blocks of the bar gives back the filled count |
| `Progress.DecimalRoundTrip` | convertupload_headless.py:148 | the decimal numeral of a number reads back as that number |
| `Progress.NoLeadingZero` | convertupload_headless.py:148 | the numeral of a number starts with '0' only when the number is zero |
| `Progress.PercentField` | convertupload_headless.py:148 | the `{pct:3d}` field on its own: three columns, spaces then a numeral of one to three digits with no leading zero, which reads back as the clamped percentage |
| `Progress.ProgressLineLayout` | convertupload_headless.py:148 | the printed line is 39 characters: `"  \|"`, the bar, `"\| "`, then in columns 35..37 the clamped percentage as `{pct:3d}` prints it (spaces, then a numeral of one to three digits with no leading zero), reading back as that percentage, then `%` |
| `Progress.ProgressLine` | convertupload_headless.py:148 | definition of the text `show_progress` prints: two spaces, the bar between bars, the clamped percentage in a three-column field, and '%'; its layout is fixed by `Progress.ProgressLineLayout` |
| `Progress.ChangePointsNoRepeats` | convertupload_headless.py:254-256 | the loop never draws the same value twice in a row, and it does not draw the starting value first |
| `Progress.ChangePointsEndCurrent` | convertupload_headless.py:254-256 | the last value drawn is the last value read, so the bar is always current |
| `Progress.ChangePointsFromInput` | convertupload_headless.py:254-256 | only values that were read are drawn |
| `Progress.ChangePointsSnoc` | convertupload_headless.py:251-256 | reading one more value draws it exactly when it differs from the previous reading |
| `Progress.FirstIdle` | convertupload_headless.py:257-258 | the index found is the first poll at which rendering is not in progress; when there is none, every poll reports rendering |
| `Progress.MonitorRender` | convertupload_headless.py:244-259 | starting from -1, the loop stops at the first idle poll and has drawn exactly the change points of the values read up to and including that poll |
| `Wizard.SmsAddresses` | convertupload_headless.py:90-95 | the SMS list is exactly four addresses, the number followed by the ATT, Verizon, TMobile and Sprint suffixes in that order |
| `Wizard.SmsAddressesDeliverable` | convertupload_headless.py:497 | for a number without '@', every gateway address passes the email check and begins with the number |
| `Wizard.StarRow` | convertupload_headless.py:514-515 | the five star glyphs after a rating of `n`, star `i` filled when `i < n`; its ensures gives the length five, and `Wizard.StarRowShowsRating` reads the rating back |
| `Wizard.StarRowShowsRating` | convertupload_headless.py:514-515 | after a rating of `n`, star `i` is filled if and only if `i < n`, and the count of filled stars gives back `n` |
| `Wizard.Session.constructor` | convertupload_headless.py:398-406 | a new session has empty fields, no recipients, rating 0, the render not finished, and the email screen |
| `Wizard.Session.EmailKey` | convertupload_headless.py:455-462 | an email key replaces the email field by `EmailKeyStep` of it and keeps the invariant |
| `Wizard.Session.EmailNext` | convertupload_headless.py:464-469 | advances to the phone screen if and only if the stripped field passes the email check, storing it as the recipient; otherwise nothing changes |
| `Wizard.Session.PhoneKey` | convertupload_headless.py:484-491 | a phone key replaces the phone field by `PhoneKeyStep` of it; the field stays at most ten digits |
| `Wizard.Session.PhoneNext` | convertupload_headless.py:493-510 | advances to the rating screen if and only if the stripped field passes the phone check, which is exactly when it holds ten digits; it then stores the four gateway addresses, draws five empty stars and disables send; otherwise nothing changes |
| `Wizard.Session.SetRating` | convertupload_headless.py:512-517 | the rating becomes `n`, the loop redraws every star as filled or empty, and send is enabled when the render has finished (never disabled here) |
| `Wizard.Session.ConversionFinished` | convertupload_headless.py:553-555 | the render flag becomes true and the output path is recorded; nothing makes the flag false again |
| `Wizard.Session.OnSend` | convertupload_headless.py:607-615 | the sending screen replaces the rating screen if and only if the render has finished and the rating is non-zero; otherwise nothing changes |
| `Wizard.Session.DeliveryTargets` | convertupload_headless.py:617-623 | once sending has begun, the render has finished, the rating is positive, the email is valid, and the four SMS addresses are valid addresses of the ten-digit number typed |
| `Wizard.RateBeforeRenderFinishes` | convertupload_headless.py:384-390 | rating 4 before the render finishes, then the render finishing, leaves the send button disabled; pressing it still calls the send handler (buttons fire on release whatever their state), and the handler starts sending |

## Left out

- DaVinci Resolve scripting, process launch and detection, DLL loading and the render-settings table: these are a vendor API and operating-system processes. Inside `headless_render`, only the polling loop is modelled, over an abstract sequence of polls.
- ffprobe, ffmpeg, ffplay and VLC playback (`get_video_dimensions`, `get_video_duration`, `trim_to_duration`, `start_secondary_loops`, `_play`, `_poll_player`): these are external tools.
- The OAuth credential flow, the Drive resumable upload (`_start_upload`) and Gmail sending (`send_email`, `final_delivery`): these are foreign library and network calls.
- The background threads and polled flags (`_run_conversion`, `_wait_until_done`, `_update_upload_status`): this is concurrency without synchronisation. Only the render flag's false-to-true step is kept, as `Session.ConversionFinished`.
- The time- and float-based estimates (`_schedule_fake_progress`, the remaining upload seconds): these depend on the clock and floating point.
- The tkinter widgets, fonts, click sound, `_keep_alive`, `_clear_below_status` and the single-instance guard socket: these are toolkit and OS plumbing. The screens are represented by `Screen`, and each widget's state by a field.
- The `print` in `show_progress`: its text is `Progress.ProgressLine`; the writing itself, the trailing carriage return and the flush are I/O.
- Validators.IsValidPhone: treats `\d` as the ASCII digits. Python's `\d` on text also matches other Unicode decimal digits.
- Keypads.PhoneKeyStep: tests `k.isdigit()` as "non-empty and all ASCII digits" (`Text.IsDigitString`). Python's `isdigit` is also true for other Unicode digits such as superscripts; no key label on the keypad is one of them.
- Progress.Clamp: takes an integer percentage, so the `int()` truncation of a non-integer progress value is not modelled.
- Progress.MonitorRender: works over a finite sequence of polls. A render that never reports idle is represented by reading every poll and returning `None`. The one-second sleep is not modelled, and neither are the exceptions that the source turns into "not running" and 0; each poll already carries the values after that conversion.
- Wizard.Session.EmailKey, Wizard.Session.PhoneKey, Wizard.Session.SetRating: require the screen whose buttons call them, and key labels from the on-screen layout. These are the only callers the program has.
- Wizard.Session: takes the email and phone fields as filled from the on-screen keys only. The entry widgets also take focus and accept a physical keyboard or a paste, so the real fields can hold whitespace, more than ten characters or non-digits. Under that input, `Valid()`'s well-formedness of the two fields is not guaranteed, and neither are `EmailNext`'s and `PhoneNext`'s "as typed" clauses (`recipientEmail == Some(email)`, `advanced <==> |phone| == MaxPhoneDigits`). Their `Strip`-based clauses describe `_email_next` and `_phone_next` for any field contents.
