# Shopping-list overview: a Dafny model

This project models the "your shopping lists" page of a browser shopping-list
manager (`app/shopping-list/page.tsx`). The page holds an ordered array of
`{id, title}` records. Three handlers replace that array:

- `handleAddItem` refuses a name that `trim()`s to `''`. Otherwise it appends a record with a fresh UUID and the name exactly as typed.
- `handleEdit` maps over the array and sets the title of every record whose id matches.
- `handleDeleteItem` filters out every record whose id matches.

A load effect adopts the array found in browser storage when the page mounts. A
persist effect skips the first render. After that, it writes the whole array
back under the single shopping-list key whenever the array changes.

The project has three modules:

- `ListText` (`list_text.dfy`): JavaScript's `String.prototype.trim` over the
  WhiteSpace and LineTerminator code points of the ECMAScript language
  specification, and the blank-name test built from it.
- `ShoppingLists` (`shopping_lists.dfy`): the `ListRecord` datatype, the
  `{id, title}` record type of `app/shopping-list/page.tsx` lines 25-28 (extra
  fields of stored records are listed under "Left out"). It has the
  three handlers' transforms as pure functions `Add`, `Rename` and `Delete`,
  and the lemmas that relate them.
- `HomePage` (`home_page.dfy`): the component's mutable state as class `Home`.
  It holds `lists` (the `shoppingLists` state), `firstRender` (the
  `isFirstRender` ref) and a ghost `stored` slot for browser storage. Its
  methods model the two effects and the three handlers. Each handler calls
  the pure transform. `Valid()` says that, once the mount effects have run,
  storage holds exactly the current array, or still nothing while the array
  is empty.

Two facts about the page's source shape the model:

- The records on this page have a `title` field (`app/shopping-list/page.tsx`, lines 25-28). The per-list page reads a `name` field from the stored lists instead.
- When storage holds nothing at mount, the state stays empty, but the first change still writes the whole array (lines 71-77).

## Model

| member | source | states |
|---|---|---|
| ListText.IsJsWhitespace | app/shopping-list/page.tsx:36 | the ECMAScript WhiteSpace and LineTerminator set that `trim()` removes; every member lies in the Basic Multilingual Plane, and NEXT LINE, MONGOLIAN VOWEL SEPARATOR and ZERO WIDTH SPACE are not in it |
| ListText.Trim | app/shopping-list/page.tsx:36 | `value.trim()` is `TrimEnd` of `TrimStart`; its result is no longer than the input and neither starts nor ends with white space (`TrimIsFramedSlice` pins it down completely) |
| ListText.IsBlank | app/shopping-list/page.tsx:36 | the guard `value.trim() === ''` holds exactly when every character is white space (`AllWhitespace`) |
| ListText.TrimStart | app/shopping-list/page.tsx:36 | the result is a suffix of the input; everything removed is white space; the result does not start with white space |
| ListText.TrimEnd | app/shopping-list/page.tsx:36 | the result is a prefix of the input; everything removed is white space; the result does not end with white space |
| ListText.TrimIsFramedSlice | app/shopping-list/page.tsx:36 | `trim()` returns a slice of the name with only white space before and after it, and trimming again changes nothing |
| ListText.BlankIffAllWhitespace | app/shopping-list/page.tsx:36 | trimming a name gives the empty string exactly when every character is white space, the empty name included |
| ShoppingLists.Add | app/shopping-list/page.tsx:35-41 | a blank name leaves the sequence unchanged; otherwise the length grows by one, every earlier record stays where it was, and the last record has the supplied id and the untrimmed name |
| ShoppingLists.AddChangesIffNotBlank | app/shopping-list/page.tsx:36-41 | adding changes the sequence if and only if the name has a character that is not white space |
| ShoppingLists.AddKeepsIdsDistinct | app/shopping-list/page.tsx:37-41 | with an id not yet in use, ids stay pairwise distinct after adding |
| ShoppingLists.DeleteUndoesAdd | app/shopping-list/page.tsx:35-63 | deleting the id just added with a fresh id gives back the original sequence, for any name |
| ShoppingLists.Rename | app/shopping-list/page.tsx:46-54 | same length; every position keeps its id; the title at a position becomes the new title exactly when its id matches, and is otherwise unchanged |
| ShoppingLists.RenameKeepsIds | app/shopping-list/page.tsx:48-53 | renaming keeps the set of present ids, and keeps distinctness in both directions |
| ShoppingLists.RenameIdentityIff | app/shopping-list/page.tsx:48-53 | renaming gives an identical sequence if and only if every record with that id already has that title; with an absent id it is always identical |
| ShoppingLists.RenameLastWins | app/shopping-list/page.tsx:46-54 | renaming the same id twice equals renaming it once with the second title |
| ShoppingLists.RenameBack | app/shopping-list/page.tsx:46-54 | with unique ids, renaming a record and then renaming it back to its old title restores the sequence |
| ShoppingLists.RenameStoresBlankTitle | app/shopping-list/page.tsx:36-54 | an all-white-space title is stored as given by a rename, while adding the same title changes nothing |
| ShoppingLists.Delete | app/shopping-list/page.tsx:61-63 | a record is in the result if and only if it was in the input and its id differs; the result is no longer than the input |
| ShoppingLists.DeleteConcat | app/shopping-list/page.tsx:62 | deleting distributes over concatenation, so the kept records stay in their original relative order |
| ShoppingLists.DeleteIsSubsequence | app/shopping-list/page.tsx:62 | the result of deleting is a subsequence of the input |
| ShoppingLists.DeleteAbsent | app/shopping-list/page.tsx:62 | deleting gives an identical sequence if and only if the id is absent |
| ShoppingLists.DeleteIdempotent | app/shopping-list/page.tsx:62 | deleting twice equals deleting once |
| ShoppingLists.DeleteKeepsIdsDistinct | app/shopping-list/page.tsx:62 | deleting keeps ids pairwise distinct |
| ShoppingLists.DeleteRemovesOne | app/shopping-list/page.tsx:62 | with unique ids, deleting a present id shortens the sequence by exactly one, and deleting an absent id by none |
| ShoppingLists.DeleteAfterRename | app/shopping-list/page.tsx:46-63 | renaming a record and then deleting it is the same as deleting it |
| HomePage.Home.constructor | app/shopping-list/page.tsx:31-59 | the first render starts with an empty array and the first-render flag set, with storage untouched |
| HomePage.Home.LoadEffect | app/shopping-list/page.tsx:65-69 | the state is replaced by the stored array exactly when storage returned a defined value |
| HomePage.Home.PersistEffect | app/shopping-list/page.tsx:71-77 | on the first render only the flag is cleared; afterwards storage receives the whole current array |
| HomePage.Home.Mount | app/shopping-list/page.tsx:65-77 | after the mount effects, the state is the stored array, or empty when nothing is stored; storage is left as it was, and mirrors the state |
| HomePage.Home.SetShoppingLists | app/shopping-list/page.tsx:71-77 | after the mount, each state change is followed by a write of the entire new array |
| HomePage.Home.HandleAddItem | app/shopping-list/page.tsx:35-44 | the state becomes `Add` of the old state; storage is written only when the name is not blank; distinct ids stay distinct |
| HomePage.Home.HandleEdit | app/shopping-list/page.tsx:46-57 | the state becomes `Rename` of the old state and is stored; distinctness is unchanged |
| HomePage.Home.HandleDeleteItem | app/shopping-list/page.tsx:61-63 | the state becomes `Delete` of the old state and is stored; distinct ids stay distinct |

## Left out

- Rendering, the dialogs, the dropdown menu, the text inputs and the `Link` navigation (page.tsx lines 79-140 and 161-225) are user interface and not modelled.
- The share-link menu entry is not modelled. It only shows a toast.
- The dialog state (`open`) and the text-box state (`value`) are not modelled. Their resets in the handlers are UI. The add-dialog trigger also calls `handleAddItem` when clicked (line 96), which is not modelled. The rename row initialises its own text box from the title (line 153), which is not modelled either. The handlers receive the typed text as a parameter.
- `crypto.randomUUID()` is an opaque supplier. `HandleAddItem` takes its value as `freshId`. It requires the id to be unused only when the name is not blank, because a blank name returns before an id is drawn.
- Titles and ids are Dafny strings of Unicode scalar values, not JavaScript's UTF-16 strings. A character outside the Basic Multilingual Plane is one `char` here but two UTF-16 units there. A lone surrogate, which a JavaScript string can hold, has no `char` at all. Neither difference affects trimming, because every white-space code point is a single BMP unit. Neither affects id comparison, which is equality of whole strings.
- `getLocalStorage` and `setLocalStorage` are not part of this model. They wrap browser storage and JSON serialisation. Storage is the ghost slot `stored` for the single shopping-list key, and the value read at mount is a parameter required to equal it. A read that fails to parse is not modelled.
- HomePage.Home.HandleAddItem, HomePage.Home.HandleEdit, HomePage.Home.HandleDeleteItem: require that the mount effects have run (`!firstRender`). React runs a committed render's effects before it handles the next user event, so this holds on the page. A handler run before the mount, which would consume the first-render flag, is not modelled.
- React scheduling is reduced to one rule: every `setShoppingLists` call produces a new array, so a re-render follows and the persist effect runs. StrictMode's double effect invocation and batching of several updates are not modelled.
- Records stored by the per-list page also carry `items` and `categories`. This page adopts them, keeps them through a rename (`{...item, title}`) and writes them back. `ListRecord` has only `id` and `title`, so those extra fields are not modelled.
- The per-list page (items, categories, the category-order sort) is not part of this model.
