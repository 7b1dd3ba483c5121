# Kilmainham slot checker — Dafny model

The program checks the Kilmainham Gaol booking site for free tour slots on
one date and mails a recipient when any exist. It builds the booking-page
address from the date and fetches the page. It then selects the bookable slot
anchors with the CSS selector `div.OPW_timesHolder div a:not(.soldOut)` and
turns each into a `(time, link)` pair. With no slots it stops with status 0;
otherwise it mails one plain-text listing and exits 0 once the relay accepts
the mail.

The model is functional. The parsed page is an immutable element tree, and
the HTTP fetch and the mail relay are function parameters. The exit status is
a returned value.

| file | module | what it holds |
|---|---|---|
| wrappers.dfy | `Wrappers` | `Option` (Python's `None`) and `Result` (a raised exception) |
| seqs.dfy | `Seqs` | `Filter`/`Map`, the two halves of a list comprehension, and the positions a filter keeps |
| text.dfy | `Text` | `str.strip()`, `str.join`, `str.format` with one keyword field |
| dom.dfy | `Dom` | element tree, document-order list of elements with their ancestors, `.text` |
| selector.dfy | `Selector` | the selector's meaning (Selectors Level 3, sections 6.6.7 and 8.1) and a one-pass matcher proved equal to it |
| parse.dfy | `Parse` | `parse_time_slots` |
| url.dfy | `Url` | `URL_TEMPLATE` and its substitution |
| notice.dfy | `Notice` | the notification body |
| kilm.dfy | `Kilm` | `get_available_slots` and `main` |

The selector has two definitions:

- **Reference:** `Selector.Selected` lists every element in document order,
  each with its chain of ancestors. It keeps a non-sold-out `a` when some
  `div` ancestor lies strictly below a `div.OPW_timesHolder` ancestor.
- **Matcher:** `Selector.Select` walks the tree once, tracking a three-state
  scope (`Outside`, `InHolder`, `InHolderDiv`).

`Selector.SelectIsSelected` proves the two give the same list. Every
statement about the parse is made against the reference definition.

## Model

| member | source | states |
|---|---|---|
| `Text.Strip` | kilm/kilm.py:43 | the stripped label is no longer than the text and has no whitespace (Python's `str.isspace` set) at either end |
| `Text.StripCuts` | kilm/kilm.py:43 | `strip()` keeps a contiguous slice of the text and removes only whitespace, from both ends |
| `Text.StripUnique` | kilm/kilm.py:43 | any way of cutting whitespace from both ends that leaves none at either end gives exactly `strip()`'s result |
| `Text.FormatLiteral` | kilm/kilm.py:56 | `str.format` copies text without braces through unchanged |
| `Text.FormatOneField` | kilm/kilm.py:56 | a template with one `{date}` field between brace-free texts formats to the first text, the value verbatim, then the second text |
| `Text.JoinSnoc` | kilm/kilm.py:118 | `"\n".join` of one more part appends the separator and that part, with nothing after it |
| `Selector.ScopeOfMeaning` | kilm/kilm.py:44 | the matcher's scope is `InHolderDiv` exactly when a `div` ancestor lies below a `div.OPW_timesHolder` ancestor, and `Outside` exactly when there is no holder ancestor |
| `Selector.SelectIsSelected` | kilm/kilm.py:44 | the one-pass matcher returns exactly the elements the selector matches, each once, in document order |
| `Selector.SelectDocument` | kilm/kilm.py:44 | selecting over a whole page gives the reference selection |
| `Selector.NoHolderSelectsNothing` | kilm/kilm.py:44 | with no `div.OPW_timesHolder` in the tree nothing is selected |
| `Dom.TextOf` | kilm/kilm.py:43 | `link.text` is the characters of the anchor's plain and CDATA strings in document order, the same as collecting all its strings, keeping those two classes and joining them; comments and `script`/`style`/`template`/`rt`/`rp` strings are left out |
| `Dom.RubyTextExample` | kilm/kilm.py:43 | the text of `<a href="/b">10:00<rt>x</rt></a>` is `10:00`: a ruby reading inside the anchor is not part of its label |
| `Parse.ParseTimeSlots` | kilm/kilm.py:30-47 | parsing succeeds exactly when every element the selector matches has an `href`, and it then gives exactly one slot per match; `Parse.ParsedSlotFields` and `Parse.ParsedSlotsFollowDocument` give each slot's fields and position |
| `Parse.SlotsOf` | kilm/kilm.py:42-45 | the comprehension succeeds exactly when every selected anchor has an `href`; it then yields one slot per anchor, in order, with the stripped text and the `href` |
| `Parse.ParsedSlotFields` | kilm/kilm.py:43 | each slot's time is its anchor's text with the surrounding whitespace cut off and none left at its ends; its link is the anchor's `href` unchanged |
| `Parse.ParsedSlotsFollowDocument` | kilm/kilm.py:42-45 | slot k comes from the k-th matching element in document order; that element is an `a` without class `soldOut` below a `div` below a `div.OPW_timesHolder`; every such anchor gives exactly one slot; no other element gives one |
| `Parse.ParseFailsOnlyWithoutHref` | kilm/kilm.py:43 | parsing raises exactly when some matched anchor lacks an `href` (the `KeyError` of `link['href']`) |
| `Parse.NoHolderNoSlots` | kilm/kilm.py:44-47 | a page without a `div.OPW_timesHolder` yields an empty slot list |
| `Parse.AllSoldOutNoSlots` | kilm/kilm.py:44-47 | a page whose anchors under a holder's inner `div` are all sold out yields an empty slot list |
| `Parse.SoldOutExample` | kilm/kilm.py:42-47 | a holder with one free anchor (text ` 10:00 `) and one sold-out anchor yields just `("10:00", "/book/1")` |
| `Url.UrlPartsBraceFree` | kilm/kilm.py:11 | the template's fixed parts hold no brace, so `{date}` is its only field |
| `Url.FetchUrl` | kilm/kilm.py:56 | the address is the fixed prefix `https://kilmainhamgaol.admit-one.eu/?p=details&ga=1&dt=`, then the date verbatim, then `&ev=TOUR` (template of line 11) |
| `Notice.JoinedBlocks` | kilm/kilm.py:118 | a newline followed by the newline-joined blocks is the listing in which each slot contributes `\nTime: <time>\nLink: <link>` |
| `Notice.Message` | kilm/kilm.py:117-119 | with at least one slot the message is `Found the following free slots on <date>:` and then one `\nTime: …\nLink: …` pair per slot, in order, with no trailing newline (the reference `Notice.Listing`) |
| `Notice.AppendSlot` | kilm/kilm.py:117-119 | one more slot appends exactly its own `\nTime: …\nLink: …` pair at the end of the message |
| `Kilm.GetAvailableSlots` | kilm/kilm.py:50-72 | a failed fetch gives no slots; an empty parse gives no slots; a parse error propagates; otherwise the non-empty parsed list is returned |
| `Kilm.Main` | kilm/kilm.py:113-126 | at most one mail is sent, and one is sent exactly when slots were found; that mail carries the environment credentials, the CLI receiver, subject `Kilmainham Slots` and the composed message; the status is 0 exactly when nothing was found or the relay accepted the mail |
| `Kilm.FetchFailureIsNeutral` | kilm/kilm.py:57-61 | when the fetch of the date's address fails, the run sends nothing and exits 0 |
| `Kilm.NoSlotsIsNeutral` | kilm/kilm.py:63-67 | when the selector matches nothing on the fetched page, the run sends nothing and exits 0 |
| `Kilm.SlotsAreMailedOnce` | kilm/kilm.py:117-126 | with matched anchors all carrying an `href`, exactly one mail with the parsed slots goes to the receiver; the run exits 0 if the relay accepts it and otherwise ends with the relay's failure |
| `Kilm.FailureCauses` | kilm/kilm.py:98-103 | the run ends with a non-zero status exactly when a matched anchor lacks an `href` or the relay refuses the mail |

## A matched anchor without `href` ends the run with status 1

`link['href']` (kilm/kilm.py:43) raises `KeyError` on a matched anchor that
has no `href` attribute. `main` (kilm/kilm.py:113-126) catches nothing, so
such a page ends the process with status 1, like a failed send.
`Parse.ParseError` stands for that error, and `Kilm.Fault.Unparsable` for it
escaping `main`. `Parse.ParseFailsOnlyWithoutHref` and `Kilm.FailureCauses`
state when it happens.

## Left out

- `fetch_page` (kilm/kilm.py:14-27): the HTTP GET, `raise_for_status` and the diagnostic print are not modelled. Only their result is kept, as the parameter `fetch: string -> Option<Document>`. It receives the address, so the model also fixes which page is asked for.
- `send_email` (kilm/kilm.py:75-103): the SMTP-over-TLS session to `smtp.mail.de:465`, the login and the MIME encoding are not modelled. The relay is the parameter `relay: Mail -> Delivery`; a `Refused` answer stands for the re-raised exception.
- HTML tokenising and tree building by BeautifulSoup (kilm/kilm.py:37): the model starts from the built tree. Tag names are taken to be lower-case, as the HTML parser produces them. The `if not soup` guard (kilm/kilm.py:39-40) is not modelled; an empty document yields an empty list either way.
- Dom.TextOf: each string's class (`Dom.StringKind`) is taken as the tree builder assigned it, and not re-derived from the tags around it. The builder gives the strings under `script`, `style`, `template`, `rt` and `rp` their own classes. A hand-written tree that puts a `Navigable` string under such an element has that string counted, where no parsed page would.
- `Selector`: only the one selector the program uses is modelled, not CSS selectors in general.
- `Text.Format`: conversions (`!r`), format specs (`:>10`), attribute and index fields, and positional `{}` fields are not modelled. The URL template uses none of them.
- `Url.UrlTemplate` is declared as the concatenation of its prefix, `{date}` and its suffix. The characters are the same as the one-piece literal of kilm/kilm.py:11.
- argparse, `print` diagnostics and `sys.exit` (kilm/kilm.py:107-111, 126): the date and receiver are plain parameters. The exit status is the returned `Termination`. An uncaught exception reads as status 1, the interpreter's status for one.
- `os.environ.get` (kilm/kilm.py:121-122): the two variables are the `Credentials` parameter, each `None` when unset. The secret is read from `PWD`, which shells usually set to the working directory. The model passes on whatever value that is, as the code does.
