# ZapLink decision logic in Dafny

ZapLink is a system-tray desktop utility. It shows and hides its main window from a tray menu. The menu also offers links to the project's GitHub pages. A global Alt+V shortcut opens the clipboard text in the browser when that text looks like a URL. A separate settings window lets the user pick a new hotkey. This project models the decision logic inside that framework glue and proves properties of it:

- `ClipboardUrl` (clipboard_url.dfy) is the URL normaliser of the shortcut handler. Text with an `http://` or `https://` prefix is opened as it is. Any other text gets `http://` in front.
- `Links` (links.dfy) holds the static `LINKS` table, the lookup by id, and the loop that builds the GitHub submenu.
- `Tray` (tray.dfy) holds the tray menu, the dispatch of menu clicks, and the class `App`. `App` stands for the application state the handlers change. Its fields are the window's visibility, the title of the "visibility-toggle" item, the list of URLs handed to the shell, and whether the process has exited.
- `HotkeySettings` (hotkey_settings.dfy) is the settings window. It builds the ordered key list from a keydown event and holds the class `Settings` with the component's `hotkey`, `displayHotkey` and `error` slots.
- `StringOps` (string_ops.dfy) models the string primitives the code calls: `starts_with`, `join` and `toUpperCase`. `Options` (options.dfy) is the optional-value type.

The URL pattern test is the `matchesUrlPattern` parameter of `Tray.App.OnShortcut`, and the clipboard read is its `clipboard` parameter (`None` for a failed read, which the code turns into the empty text). The window, the tray handle, the shell's `open` and `app.exit` appear only through their effect on the fields of `App`.

src-tauri/src/main.rs registers the fixed shortcut "Alt+V". src/HotkeySettings.tsx invokes `get_hotkey` and `update_hotkey`, which that Rust file does not define, so the model stops at the request the settings window sends.

## Model

| member | source | states |
|---|---|---|
| StringOps.StartsWith | src-tauri/src/main.rs:100 | the prefix test behind every `starts_with`; StartsWithConcat shows a text starts with any prefix put in front of it |
| StringOps.StartsWithConcat | src-tauri/src/main.rs:103 | "http://" followed by any text starts with "http://" |
| StringOps.Join | src/HotkeySettings.tsx:43 | the joined string begins with the first part; JoinAppend and JoinLength give the rest of its shape |
| StringOps.ToUpper | src/HotkeySettings.tsx:25 | upper-casing keeps the length and maps every character in place |
| StringOps.UpperChar | src/HotkeySettings.tsx:25 | a lower-case ASCII letter becomes its capital, and the result is never a lower-case ASCII letter; other characters are kept, which is the ASCII-only part of the mapping |
| StringOps.ToUpperHasNoLowerCase | src/HotkeySettings.tsx:25 | an upper-cased key holds no lower-case ASCII letter |
| StringOps.JoinAppend | src/HotkeySettings.tsx:43 | joining one more key adds the separator and that key at the end |
| StringOps.JoinLength | src/HotkeySettings.tsx:43 | a joined list is as long as its parts plus one separator between each two neighbours |
| ClipboardUrl.HasScheme | src-tauri/src/main.rs:100 | the case-sensitive test for an "http://" or "https://" prefix; Normalize guarantees it of every URL it returns |
| ClipboardUrl.Normalize | src-tauri/src/main.rs:100-104 | the URL always has an http or https scheme, is the text unchanged when the text has one, and is "http://" followed by the text otherwise |
| ClipboardUrl.NormalizeIdempotent | src-tauri/src/main.rs:100-104 | normalising a normalised URL returns it unchanged |
| ClipboardUrl.NormalizeFixedPoints | src-tauri/src/main.rs:100-104 | normalisation leaves a text unchanged exactly when the text has a scheme |
| ClipboardUrl.NormalizeKeepsText | src-tauri/src/main.rs:102-104 | the clipboard text is always the tail of the URL opened |
| ClipboardUrl.NormalizeBareDomain | src-tauri/src/main.rs:100-104 | "example.com/path?x=1" becomes "http://example.com/path?x=1" |
| ClipboardUrl.NormalizeUpperCaseScheme | src-tauri/src/main.rs:100 | the scheme test is case-sensitive: "HTTPS://example.com" becomes "http://HTTPS://example.com" |
| Links.LinkIdsDistinct | src-tauri/src/main.rs:22-26 | no two table entries share an id |
| Links.LinkIdsAreGithub | src-tauri/src/main.rs:22-26 | every table id starts with "open-github" |
| Links.LinkUrlsHaveScheme | src-tauri/src/main.rs:22-26 | every URL in the table has an http or https scheme |
| Links.Find | src-tauri/src/main.rs:148 | the lookup finds nothing exactly when no entry has the id, and otherwise returns an entry of the table with that id |
| Links.FindIsFirst | src-tauri/src/main.rs:148 | the entry found comes no later than any entry with that id |
| Links.FindLink | src-tauri/src/main.rs:148 | the lookup in `LINKS` finds an entry exactly when some entry has the id, and the entry found is a table entry with that id |
| Links.FindLinkUnique | src-tauri/src/main.rs:148 | looking up the id of a table entry returns exactly that entry |
| Links.FilterByPrefix | src-tauri/src/main.rs:45 | every entry the filter keeps has an id starting with the prefix, and it keeps no more entries than the table has |
| Links.FilterMembership | src-tauri/src/main.rs:45 | the filter keeps exactly the entries whose id starts with the prefix |
| Links.FilterAppend | src-tauri/src/main.rs:45 | filtering distributes over concatenation, so table order is kept |
| Links.ItemsOf | src-tauri/src/main.rs:46 | each entry becomes one menu item with the entry's id and, as title, its label |
| Links.ItemsOfAppend | src-tauri/src/main.rs:46 | building items distributes over concatenation |
| Links.SubmenuStep | src-tauri/src/main.rs:45-46 | one more table entry adds exactly its own item to the submenu when its id has the prefix, and nothing otherwise |
| Links.BuildSubmenu | src-tauri/src/main.rs:44-47 | the loop builds one item, titled with the label, for each entry whose id starts with the prefix, in table order |
| Links.GithubSubmenuContents | src-tauri/src/main.rs:43-50 | the GitHub submenu is the InfiniteL8p item followed by the ZapLink item |
| Tray.Dispatch | src-tauri/src/main.rs:131-153 | a click toggles exactly for "visibility-toggle" and quits exactly for "quit"; it opens a URL exactly for an "open-" id found in the table, and that URL is the third field of the entry with that id; anything else does nothing |
| Tray.DispatchOpensTableUrl | src-tauri/src/main.rs:147-150 | a click on the id of an "open-" table entry opens that entry's URL |
| Tray.DispatchUnknownIgnored | src-tauri/src/main.rs:147-152 | an id that is neither the toggle, nor quit, nor in the table does nothing |
| Tray.TableIdsHaveOpenPrefix | src-tauri/src/main.rs:22-26 | every table id starts with "open-" |
| Tray.TrayMenu | src-tauri/src/main.rs:52-56 | the tray menu; TrayMenuIds gives its clickable ids and TrayMenuFullyHandled a handler for each |
| Tray.BuildTrayMenu | src-tauri/src/main.rs:43-56 | the start-up code builds the tray menu: the toggle titled "Show", the GitHub submenu of the filtered links, a separator and "Quit" |
| Tray.TrayMenuIds | src-tauri/src/main.rs:52-56 | the clickable ids of the tray menu are the toggle, the two GitHub ids and quit, in that order |
| Tray.TrayMenuFullyHandled | src-tauri/src/main.rs:131-150 | each clickable id of the tray menu has a handler: the toggle toggles, quit quits, and each GitHub item opens its own entry's URL |
| Tray.App.constructor | src-tauri/src/main.rs:53 | at start-up the toggle item is titled "Show", nothing has been opened and the process runs |
| Tray.App.Toggle | src-tauri/src/main.rs:132-145 | visibility is negated; a visible window is hidden and the item titled "Show"; a hidden window is shown and titled "Hide"; nothing else changes |
| Tray.App.OnMenuItemClick | src-tauri/src/main.rs:128-153 | the toggle flips visibility and retitles, quit ends the process, an "open-" id from the table appends that entry's URL to the opened URLs, any other id changes nothing; every opened URL keeps a scheme |
| Tray.App.OnSystemTrayEvent | src-tauri/src/main.rs:126-157 | a menu click acts as above; every other tray event changes nothing |
| Tray.App.OnCloseRequested | src-tauri/src/main.rs:73-84 | a close request leaves the window hidden and the item titled "Show", and the process keeps running |
| Tray.App.OnRunEvent | src-tauri/src/main.rs:118-123 | an exit request is prevented: nothing changes |
| Tray.App.OnShortcut | src-tauri/src/main.rs:90-111 | text that matches the pattern is opened after normalisation; other text opens nothing; a failed read is the empty text, so it opens nothing whenever the pattern rejects the empty text; the window, the item title and the process are untouched |
| Tray.CloseThenToggle | src-tauri/src/main.rs:74-142 | closing the window and then clicking the toggle leaves it visible with the item titled "Hide" |
| HotkeySettings.PresentModifiers | src/HotkeySettings.tsx:18-23 | the modifier names whose flags are set; PresentModifiersUnfold and ModifiersUpToRanked show they come in the order Ctrl, Alt, Shift, Super without repeats |
| HotkeySettings.MainKey | src/HotkeySettings.tsx:25-35 | the upper-cased key unless it names a modifier key; KeyListMainKeyLast shows when it ends the list |
| HotkeySettings.KeyList | src/HotkeySettings.tsx:18-35 | the key list of an event; BuildKeys computes it, and KeyListOrdered, KeyListModifiers, KeyListLength and KeyListEmpty state its shape |
| HotkeySettings.PresentModifiersUnfold | src/HotkeySettings.tsx:20-23 | the modifier part of the list is the four conditional pushes, in the order Ctrl, Alt, Shift, Super |
| HotkeySettings.ModifiersUpToRanked | src/HotkeySettings.tsx:20-23 | the modifiers pushed so far come in table order with no repeats |
| HotkeySettings.BuildKeys | src/HotkeySettings.tsx:17-35 | the pushes build exactly the key list of the event |
| HotkeySettings.UpperCaseIsNoModifierName | src/HotkeySettings.tsx:25 | an upper-cased key never equals "Ctrl", "Alt", "Shift" or "Super" |
| HotkeySettings.KeyListOrdered | src/HotkeySettings.tsx:18-35 | the key list lists the modifiers in the order Ctrl, Alt, Shift, Super and then the main key, and no entry appears twice |
| HotkeySettings.KeyListModifiers | src/HotkeySettings.tsx:20-23 | each modifier name is in the list exactly when its flag is set |
| HotkeySettings.KeyListLength | src/HotkeySettings.tsx:18-35 | the list has one entry per set flag plus one for a main key that is not a modifier, so at most five |
| HotkeySettings.KeyListMainKeyLast | src/HotkeySettings.tsx:25-35 | the upper-cased main key is last exactly when it is not CONTROL, ALT, SHIFT or META |
| HotkeySettings.KeyListEmpty | src/HotkeySettings.tsx:37-40 | the list is empty exactly when no flag is set and the key itself is a modifier key |
| HotkeySettings.PlainKeyAccepted | src/HotkeySettings.tsx:37-44 | a single key without modifiers gives a non-empty list, which is accepted despite the error text |
| HotkeySettings.CtrlShiftLDisplay | src/HotkeySettings.tsx:18-43 | Ctrl+Shift+l gives the list Ctrl, Shift, L, displayed as "Ctrl + Shift + L" |
| HotkeySettings.Settings.constructor | src/HotkeySettings.tsx:9-11 | the hotkey starts empty, the display shows the prompt and there is no error |
| HotkeySettings.Settings.HandleKeyDown | src/HotkeySettings.tsx:14-45 | an empty list sets the error and leaves hotkey and display alone; a non-empty list becomes the hotkey, the display becomes it joined with " + " and the error is cleared |
| HotkeySettings.Settings.HandleSaveHotkey | src/HotkeySettings.tsx:47-54 | an empty hotkey sets "No hotkey selected." and sends no update; otherwise the update carries the hotkey and nothing changes yet |
| HotkeySettings.Settings.ReceiveFetchedHotkey | src/HotkeySettings.tsx:69-70 | the fetched hotkey replaces the hotkey and nothing else |
| HotkeySettings.Settings.SyncDisplay | src/HotkeySettings.tsx:79-83 | afterwards a non-empty hotkey is displayed joined with " + "; an empty hotkey leaves the display untouched; a display already in sync is not changed |

## Left out

- The regular expression of the shortcut handler is not modelled. Its test is the `matchesUrlPattern` parameter of `Tray.App.OnShortcut`.
- Clipboard access, the shell's `open`, window show and hide, the tray item's `set_title`, `app.exit` and shortcut registration are framework calls. The model keeps only their effect on the fields of `Tray.App`.
- The `unwrap` and `expect` panics and the `unimplemented!` for a failed visibility query are framework failures, so no error path is modelled for them.
- The lookup of the clicked item's handle (`get_item`), the `dbg!` trace and the `println!` for text that is not a URL are not modelled. They decide nothing.
- The `close_splashscreen` and `unhide_window` commands are not modelled. `unhide_window` shows the window without retitling the toggle item, so the title can disagree with the window's state. The toggle still acts correctly because it reads the window's real visibility.
- The model does not stop handlers from running after quit. The source never runs one once the process has exited.
- The window's initial visibility comes from a configuration file that is not part of this model. It is the constructor's parameter.
- StringOps.UpperChar: maps only the ASCII letters a to z; a non-ASCII lower-case letter such as é is kept, where JavaScript capitalises it.
- StringOps.ToUpper: upper-cases only the ASCII letters. JavaScript's full Unicode case mapping, which can change the length of a string, is not modelled.
- The asynchronous part of saving is not modelled: the `invoke` call itself, the `then` branch (alert, clearing the error, `emit`, closing the window) and the `catch` branch. `HotkeySettings.Settings.HandleSaveHotkey` returns the request it would send.
- `event.preventDefault()`, the focus effect, `console.error` and the rendered markup are UI effects and are not modelled.
- The settings file and the Rust-side `get_hotkey` and `update_hotkey` commands are not part of this model.
- src/App.tsx and src/main.tsx only render components and fetch a version string. They are not part of this model.
