# Portfolio gallery and Muse chat widget — a verified Dafny model

This project models the two pieces of state logic of a single-page design
portfolio site:

- **The portfolio gallery** (`components/Portfolio.tsx`): an ordered list of
  `Project` records (`types.ts`) seeded with six demonstration projects. The
  user can add a project from a form (guarded: title and image must be
  non-empty; the new project goes to the front), delete projects by id after a
  confirmation dialog, reset to the demonstration data after a confirmation,
  and filter the view by category. When the gallery mounts it replaces the
  list by the one in the browser's saved slot, if that slot holds a readable
  list.
- **The Muse chat widget** (`components/AiMuse.tsx`): a transcript that opens
  with one assistant greeting. A send is rejected while the input is blank
  (`inputText.trim()` is empty) or a call is in flight; an accepted send
  appends the user's message, clears the input, turns busy, awaits the
  language-model service, appends one assistant message on a reply (showing
  `...` for an empty reply) and nothing on a thrown error, and turns idle in
  every case.

Layout: `seqs.dfy` (an `Option` type, and `Select`, the model of
`Array.prototype.filter`, with its subsequence and multiplicity lemmas),
`project_types.dfy` (the `Project` record and its categories),
`portfolio.dfy` (the gallery: pure list functions and lemmas, and the class
`PortfolioView` whose methods update the component state), `js_text.dfy`
(`String.prototype.trim` over the ECMAScript white-space and line-terminator
characters) and `ai_muse.dfy` (the chat widget: the class `MuseChat`).

Inputs from the browser are parameters: the confirmation dialog is a `bool`,
the clock readings used as ids (`Date.now()`) are `string` ids, the current
year of the blank form is a `string`, the saved slot is an
`Option<seq<Project>>`, and the outcome of the awaited service call is a
`Reply` (`Ok(text)` or `Fail` for a thrown error).

The asynchronous `handleSend` is split at its one suspension point:
`MuseChat.Submit` is the part before the `await` (lines 28-33, returning the
text handed to the service) and `MuseChat.Complete` the part after it (lines
37-47). `MuseChat.HandleSend` runs one after the other, for a call that
settles before the user edits the input again; calling `SetInput` between
`Submit` and `Complete` models the other interleavings.

The widget takes one complete reply. There is no streaming and no error flag
on messages. A thrown error appends nothing (components/AiMuse.tsx:43-44).

## Model

| member | source | states |
|---|---|---|
| `ProjectTypes.Category.Label` | types.ts:4 | every category label is non-empty and differs from the "all" filter label |
| `ProjectTypes.LabelInjective` | types.ts:4 | two categories have the same label exactly when they are the same category |
| `Seqs.Select` | components/Portfolio.tsx:86 | `filter` keeps only elements passing the test, keeps every passing element, and is never longer than its input |
| `Portfolio.CategoriesSpec` | components/Portfolio.tsx:15 | the constant `CATEGORIES`: the filter buttons are "all" followed by exactly the labels of the three categories |
| `Portfolio.DefaultProjectsSpec` | components/Portfolio.tsx:6-13 | the constant `DEFAULT_PROJECTS` holds six projects, each with non-empty title, image and year, with pairwise distinct ids |
| `Portfolio.ButtonCategory` | components/Portfolio.tsx:15 | every filter button other than "all" carries the label of a category |
| `Portfolio.VisibleByCategory` | components/Portfolio.tsx:84-86 | under a filter button other than "all" the view holds exactly the projects of that button's category, with their multiplicities |
| `Portfolio.BlankDraft` | components/Portfolio.tsx:25-30 | the blank form has empty title and image, category UI/UX, and the current year |
| `Portfolio.FromDraft` | components/Portfolio.tsx:53-59 | the new project copies id, title, category and image; its year is the form year, or "2024" when that is empty, so never empty |
| `Portfolio.RemainingSpec` | components/Portfolio.tsx:69 | deleting an id leaves an order-preserving subsequence in which no project has that id and every other project keeps its multiplicity |
| `Portfolio.RemainingAbsent` | components/Portfolio.tsx:69 | deleting leaves the list unchanged exactly when no project has that id |
| `Portfolio.RemainingIdempotent` | components/Portfolio.tsx:69 | deleting the same id twice is the same as deleting it once |
| `Portfolio.VisibleSpec` | components/Portfolio.tsx:84-86 | under "all" the view is the whole list; otherwise it is the order-preserving subsequence of projects with that category label, with their multiplicities, and never longer than the list |
| `Portfolio.VisiblePrepend` | components/Portfolio.tsx:84-86 | after a project is prepended, the view gains it at the front exactly when it passes the filter and is otherwise unchanged |
| `Portfolio.PortfolioView.AddButtonDisabled` | components/Portfolio.tsx:304 | the add button is disabled exactly when the add handler's guard (line 51, `AddRejected`) rejects the form; `AddProject`'s contract is written in terms of it |
| `Portfolio.PortfolioView.FilteredProjects` | components/Portfolio.tsx:84-86 | the displayed list: everything under "all"; otherwise an order-preserving subsequence of the projects holding exactly those of the filter's category, with their multiplicities |
| `Portfolio.PortfolioView.constructor` | components/Portfolio.tsx:18-30 | the gallery starts with the demonstration data, filter "all", the form closed and blank |
| `Portfolio.PortfolioView.LoadSaved` | components/Portfolio.tsx:34-43 | on mount a readable saved list replaces the projects; an absent or unreadable slot keeps them; nothing else changes |
| `Portfolio.PortfolioView.AddProject` | components/Portfolio.tsx:50-64 | while the add button is disabled (empty title or image) nothing changes; otherwise the project built from the form is prepended to the unchanged old list, the form closes and is cleared, and the filter is untouched |
| `Portfolio.PortfolioView.DeleteProject` | components/Portfolio.tsx:66-71 | with confirmation the list becomes the remaining projects; without it nothing changes; the form, modal and filter never change |
| `Portfolio.PortfolioView.ResetToDefaults` | components/Portfolio.tsx:193-198 | with confirmation the list becomes exactly the demonstration data; without it nothing changes |
| `Portfolio.PortfolioView.SetFilter` | components/Portfolio.tsx:99-111 | a filter button sets the filter to its label and changes nothing else; the filter stays one of the buttons |
| `Portfolio.PortfolioView.SetModalOpen` | components/Portfolio.tsx:132 | opening or closing the form changes only the modal flag |
| `Portfolio.PortfolioView.EditDraft` | components/Portfolio.tsx:232-293 | editing the form changes only the form |
| `JsText.TrimEmptyIffBlank` | components/AiMuse.tsx:28 | `s.trim()` is empty exactly when every character of `s` is JavaScript white space |
| `AiMuse.ShownText` | components/AiMuse.tsx:39 | the assistant message text is never empty: the reply text itself, or `...` when the reply is empty |
| `AiMuse.ReplyMessages` | components/AiMuse.tsx:37-44 | a reply contributes exactly one assistant message with the shown text; an error contributes none |
| `AiMuse.ExchangeCounts` | components/AiMuse.tsx:30-42 | an accepted exchange adds exactly one user message, and one assistant message on a reply and none on an error |
| `AiMuse.GreetingSpec` | components/AiMuse.tsx:15 | the constant `GREETING` is an assistant message with id "0" and non-empty text |
| `AiMuse.MuseChat.SendEnabled` | components/AiMuse.tsx:124 | the send button is enabled exactly when the input is not all white space and no call is in flight; `Submit`'s contract (the guard of line 28) is written in terms of it |
| `AiMuse.MuseChat.constructor` | components/AiMuse.tsx:14-18 | the transcript starts as the single assistant greeting, with empty input and not busy |
| `AiMuse.MuseChat.SetInput` | components/AiMuse.tsx:117 | typing changes only the input text |
| `AiMuse.MuseChat.Submit` | components/AiMuse.tsx:28-33 | rejected, with nothing changed, exactly when the input is blank or a call is in flight (the same condition that disables the send button); otherwise appends a user message with the pre-send input, clears the input, turns busy (so a second send is rejected) and hands the pre-send input to the service |
| `AiMuse.MuseChat.Complete` | components/AiMuse.tsx:36-47 | after the call the transcript gains the reply's messages and the widget is idle, whatever the outcome |
| `AiMuse.MuseChat.HandleSend` | components/AiMuse.tsx:27-48 | a rejected send changes nothing; an accepted one leaves the old transcript a prefix, followed by the user message and the reply's messages, with input cleared and the widget idle |

## Left out

- The language-model service (`services/geminiService.ts`) is not part of this model: its outcome is the `Reply` parameter. The service as written never throws (it returns a fallback text), so `Fail` is reachable only through the abstract interface.
- Writing the list to the saved slot after every change (components/Portfolio.tsx:46-48) and clearing the slot on reset (line 196): browser storage I/O. The mount-time read is modelled only by its outcome, so a slot whose text parses to something other than a project list is not modelled.
- Image upload through `FileReader` (components/Portfolio.tsx:73-82): asynchronous browser I/O.
- The clock: ids from `Date.now()` and the current year are parameters, and nothing is claimed about id uniqueness, which the code does not ensure.
- The management-mode toggle, hover state, the chat panel's open flag, auto-scrolling, animations and all markup: presentation only. The delete and reset handlers are modelled without the management-mode condition that only governs whether their buttons are shown.
- Diagnostic logging with `console.error` (components/AiMuse.tsx:44, components/Portfolio.tsx:40): output only, no state change.
- Strings are sequences of Unicode scalar values, while JavaScript strings are sequences of UTF-16 code units; a lone surrogate, which JavaScript allows, is not representable here. Emptiness and white-space tests agree for all other strings.
- The header, hero, contact, footer and top-level app components: presentational, with no state logic.
