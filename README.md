# JeepMe page script, modelled in Dafny

The blog's page script `public/assets/js/main.js` wires a set of
independent widgets to browser events. This project models the ones that
hold logic of their own, with the DOM abstracted into plain state:

- **Theme controller** (`Theme`): a `ThemeManager` class whose fields are
  the current theme, the `data-theme` attribute of the document root and
  the preference store (a `map<string, string>`). The theme at load is the
  stored `theme` value, or `"light"` when it is missing or empty; applying a
  theme writes all three; a click maps `"light"` to `"dark"` and anything
  else to `"light"`.
- **Share-link dispatcher** (`Share`): a function from a platform name to
  the URL the share window opens (`None`: no window). `encodeURIComponent`
  is a parameter `enc` and stays uninterpreted. Its partner is a reader
  that splits a URL at `?`, `&` and `=`: every share URL reads back as its
  platform's endpoint with exactly the intended parameters, provided `enc`
  emits only the characters `encodeURIComponent` emits (the uriUnescaped
  set of ECMA-262 — letters, digits and `-_.!~*'()` — and `%`).
- **Mobile menu toggle** (`Menu`): a `MobileMenu` class with the open flag
  and the class list of the toggle button; a click negates the flag and
  adds or removes `active`, so the button shows the flag.
- **Table-of-contents builder** (`Toc`): the collected `h2`/`h3` headings
  are an array updated in place; `GenerateToc` is proved against the
  specification functions `WithIds` (id assignment) and `Entries` (one link
  per heading), about which the lemmas are stated.
- **Scroll-depth tracker** (`Analytics`): the running maximum `maxScroll`,
  tied by a ghost history of scroll samples to `MaxDepth`, the largest
  sample or 0.

`Strings` holds what JavaScript supplies: the decimal form of an index,
ASCII lower-casing, first-occurrence search and splitting. `Split` is only
the URL reader's tool; `Join` and the lemma `JoinSplit` (joining the
pieces again gives back the string) are its sanity check, not a model of
the page script.

The model follows the code where its behaviour is surprising: an
unrecognised stored theme is applied as it is (not only `"light"` and
`"dark"` occur), and toggling the menu on a page without `.nav-menu` is not
guarded in the code, so `Toggle` requires the menu to be present.

## Model

| member | source | states |
|---|---|---|
| Theme.InitialTheme | public/assets/js/main.js:9 | the theme at load is never empty: the stored value when present and non-empty, else "light"; an unrecognised value is kept |
| Theme.Toggled | public/assets/js/main.js:25 | a click always yields "light" or "dark", and yields "dark" exactly when the theme was "light" |
| Theme.ThemeManager.constructor | public/assets/js/main.js:8-16 | the initial theme is InitialTheme of the store; field, root attribute and stored preference agree; only the `theme` entry of the store is written |
| Theme.ThemeManager.ApplyTheme | public/assets/js/main.js:18-22 | field and attribute become the theme, the store gets it under `theme` and nothing else in the store changes; all three agree |
| Theme.ThemeManager.Toggle | public/assets/js/main.js:24-27 | the new theme is Toggled of the old one, applied to field, attribute and store, which stay in step |
| Theme.ReloadRestores | public/assets/js/main.js:9-22 | a non-empty applied theme is what the next page load reads back from the store |
| Theme.ToggleTwiceKnown | public/assets/js/main.js:24-27 | two clicks from "light" or "dark" restore it |
| Theme.ToggleTwiceUnknown | public/assets/js/main.js:24-27 | from an unrecognised theme one click gives "light" and two give "dark" |
| Theme.AfterClicksParityKnown | public/assets/js/main.js:24-33 | from "light" or "dark", n clicks give the start theme for even n and the other one for odd n |
| Theme.AfterClicksParityUnknown | public/assets/js/main.js:24-33 | from an unrecognised theme, n >= 1 clicks give "light" for odd n and "dark" for even n; the starting theme never returns |
| Share.ShareUrl | public/assets/js/main.js:53-83 | a URL (a window) is produced exactly for facebook, twitter, whatsapp, linkedin and telegram; any other platform yields none |
| Share.ShareUrlReadsBack | public/assets/js/main.js:62-77 | every share URL splits into its platform's endpoint and exactly the intended parameters holding the encoded page URL and title unchanged |
| Share.FacebookReadsBack | public/assets/js/main.js:63-65 | the Facebook URL reads back as the sharer endpoint with the single parameter `u` = encoded page URL |
| Share.TwitterReadsBack | public/assets/js/main.js:66-68 | the Twitter URL reads back as the tweet endpoint with `url` = encoded page URL, then `text` = encoded title |
| Share.WhatsAppReadsBack | public/assets/js/main.js:69-71 | the WhatsApp URL reads back as `wa.me/` with one `text` parameter: encoded title, `%20`, encoded page URL |
| Share.LinkedInReadsBack | public/assets/js/main.js:72-74 | the LinkedIn URL reads back as the share-offsite endpoint with the single parameter `url` = encoded page URL |
| Share.TelegramReadsBack | public/assets/js/main.js:75-77 | the Telegram URL reads back as the share endpoint with `url` = encoded page URL, then `text` = encoded title |
| Share.ShareIgnoresDescription | public/assets/js/main.js:56-58 | the encoded description never influences the share URL |
| Menu.MobileMenu.constructor | public/assets/js/main.js:88-91 | the menu starts closed and the button keeps its own classes |
| Menu.MobileMenu.Toggle | public/assets/js/main.js:100-127 | a click negates the open flag; afterwards the button has `active` exactly when the menu is open, and its other classes are unchanged |
| Menu.MobileMenu.ToggleTwice | public/assets/js/main.js:100-127 | two clicks from a state where the button shows the flag restore both the flag and the button's class list |
| Strings.NatToString | public/assets/js/main.js:280 | the numeral of an index is a non-empty string of decimal digits that denotes the index, with no leading zero unless the index is 0 |
| Strings.ToLower | public/assets/js/main.js:284 | lower-casing keeps the length and lowers each ASCII capital, leaving other characters alone |
| Toc.GeneratedId | public/assets/js/main.js:280 | a generated id is "heading-" followed by a numeral that denotes the heading's position |
| Toc.WithId | public/assets/js/main.js:279-281 | one heading after the loop has seen it: its id is non-empty, an existing id is kept unchanged, a missing one becomes the generated id of its position; tag and text are untouched |
| Toc.WithIds | public/assets/js/main.js:277-281 | after assignment every heading has a non-empty id; existing ids are kept, a missing one becomes "heading-" + position; tag and text are untouched |
| Toc.EntryFor | public/assets/js/main.js:283-288 | the entry of a heading is a fragment link: href "#" followed by the heading's id, class its lower-cased tag, text its text |
| Toc.Entries | public/assets/js/main.js:277-291 | one entry per heading, in document order, entry k linking to heading k's id with its lower-cased tag and its text |
| Toc.EntryLinksHeading | public/assets/js/main.js:283-291 | entry k links to heading k: href is "#" + its final id, class its lower-cased tag, text its text |
| Toc.EntryClassIsLowerTag | public/assets/js/main.js:284 | the entry class of an H2 heading is "h2" and of an H3 heading "h3" |
| Toc.EntryTargetUnique | public/assets/js/main.js:283-291 | when the final ids are pairwise distinct, the fragment of entry k names heading k and no other |
| Toc.GeneratedIdsDistinct | public/assets/js/main.js:279-281 | two headings that had no id get different ids |
| Toc.BlockFor | public/assets/js/main.js:271-275 | the table is the "table-of-contents" block titled "Table of Contents", holding one entry per heading in order, each linking to that heading's id with its text |
| Toc.Article.constructor | public/assets/js/main.js:265-268 | the `.article-content` container holds exactly the given headings, in a fresh array, records whether it has a first paragraph, and starts with no inserted table |
| Toc.GenerateToc | public/assets/js/main.js:264-299 | with fewer than 3 headings nothing changes; otherwise the headings become WithIds of the old ones and, only if there is a paragraph, one table with one entry per heading in order is inserted |
| Analytics.Max | public/assets/js/main.js:329 | `Math.max` of two integer percentages: at least both, and equal to one of them |
| Analytics.MaxDepth | public/assets/js/main.js:324-330 | the value `maxScroll` holds after a run of scroll events is never negative and at least the latest sample |
| Analytics.MaxDepthIsMaximum | public/assets/js/main.js:324-330 | the tracked depth is at least 0 and every sample seen, and is 0 or one of the samples |
| Analytics.MaxDepthMonotone | public/assets/js/main.js:324-330 | further scroll events never lower the tracked depth |
| Analytics.ScrollDepthTracker.constructor | public/assets/js/main.js:324 | the depth starts at 0 with no samples |
| Analytics.ScrollDepthTracker.OnScroll | public/assets/js/main.js:325-330 | the depth becomes the larger of the old depth and the sample, never decreases, and stays MaxDepth of all samples seen |

## Left out

- Event wiring: listener registration, the `DOMContentLoaded` bootstrap, the optional theme button lookup (`setupToggle`) and the share buttons' `data-share` lookup; each click is a direct call of the modelled method.
- `ReadingProgress`: floating-point division with an unguarded zero divisor, used only as a CSS width string.
- `LazyLoader` and `SmoothScroll`: wiring of `IntersectionObserver`, `scrollIntoView` and `preventDefault`, with no data logic.
- `CopyLink`: the asynchronous clipboard write and the timed toast removal.
- Service-worker registration and every `console.log`, including the page-view and engagement summaries.
- `Analytics`: the elapsed-time measurement (`Date.now`) and the rounded floating-point percentage of each scroll event, which is an integer input. A NaN percentage (0/0 when `scrollHeight` equals `innerHeight`) is not modelled: `Math.max` with NaN is NaN, so one such event leaves `maxScroll` NaN for the rest of the page, a run that `MaxDepthIsMaximum` and `MaxDepthMonotone` do not describe.
- `encodeURIComponent`: its UTF-8 percent-encoding is not modelled; `enc` is any function, and the read-back lemmas assume only its output alphabet.
- `window.open`: its target and window features; a `Some` share URL stands for the call.
- Theme.ThemeManager.ApplyTheme: `localStorage.setItem` can throw (blocked storage, full quota); the attribute and the field are then already set while the store is not and the exception escapes. The store here is a map that cannot fail, so this path is not modelled and `InStep` does not describe it.
- Theme.ThemeManager.constructor: `localStorage.getItem` can throw when storage is blocked, which would escape `new ThemeManager()` and stop the remaining widgets from being set up; the model's store read cannot fail.
- Share.ShareIgnoresDescription: `encodeURIComponent` throws a URIError on a lone surrogate, so the encoded description can decide whether any window opens; `enc` is total here, so the lemma does not cover that failure, and neither does `ShareUrl`.
- Menu.MobileMenu.Toggle: the nine inline style assignments on `.nav-menu` are not modelled, and a page without `.nav-menu` is excluded by a precondition (the code would throw there after flipping the flag).
- Toc.GenerateToc: the headings are given already collected by `querySelectorAll('h2, h3')`; the HTML of the block is kept as its class, title and entries; that the table goes right after the container's first `p` descendant is not modelled, only that it is inserted.
- Strings.ToLower: lower-cases ASCII only, which covers the `H2`/`H3` tag names; Unicode case mapping is not modelled.
- Toc.GeneratedIdsDistinct: distinct only among generated ids; an existing id equal to a generated one (say, "heading-1" already used) is not excluded by the code and not by the model.
