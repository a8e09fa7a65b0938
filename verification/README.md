# Talent ledger — a Dafny model

The server keeps a points ("talent") ledger for a youth-group fair. Every
participant has an NFC card identified by a token. A card holds a label (the
holder's name) and a balance. Booths log in with a username and password and
may only deduct points. Administrators log in with a shared password and may
do the following:

- move balances in either direction;
- set a balance outright;
- rename, overwrite, bulk-import and delete cards;
- manage booth accounts;
- download the whole transaction log as CSV.

Every balance change made through the apply and set-balance endpoints also
appends one row to the `transactions` table. The bulk import and the single
card upsert write balances directly and add no row.

The model follows `server.js` in these modules:

| module | file | what it holds |
|---|---|---|
| `Base` | base.dfy | `Option` and the `x || ""` idiom (`OrEmpty`) |
| `Text` | text.dfy | JavaScript's `trim`, `trimStart`, `trimEnd` and one-character `split`/`join`, with their laws |
| `Numbers` | numbers.dfy | `parseInt(s, 10)` (skip leading space, an optional sign, the longest digit prefix, NaN if there is none) and the decimal rendering of an integer |
| `Db` | db.dfy | the three tables as a `Store`, and each prepared statement (server.js:28-43) as a function from store to store or to a result |
| `Audit` | audit.dfy | the ledger sum of a card, its drift (balance minus ledger sum), and the invariants `Consistent`, `Anchored`, `Ordered` and `WellSourced` |
| `Identity` | identity.dfy | cookie parsing (`getBooth`, `checkLogin`), the admin password and the two logins |
| `Routes` | routes.dfy | every ledger-touching handler as `Store -> Outcome(store, reply)`, the request type, the admin gate and the dispatcher |
| `Bulk` | bulk.dfy | `/card/bulk`: line splitting on `\r?\n`, field parsing, the overwrite rule, and a renderer that round-trips |
| `Export` | export.dfy | `/download-tx`: the CSV text, a reader for it, and the proof that the file reads back row by row |
| `Laws` | laws.dfy | properties relating several handlers: drift, soundness, the dangling row, cascades and idempotence |

Modelling choices:

- Request body fields are `Option<string>`. A missing field is `None`, and
  JavaScript's truthiness test `!x` becomes `!Given(x)`.
- Fields checked with `Number.isInteger` arrive as `Option<int>`. `Some(n)`
  means the client sent an integer.
- The time SQLite stamps on a row (`datetime('now')`) is a parameter `at`.
  It ends up in the row and in the CSV's last column.
- The id counter of the `transactions` table is `nextId`. It grows with
  every row written and is never reused, just like `AUTOINCREMENT`.

## Model

| member | source | states |
|---|---|---|
| Db.EnsureCard | server.js:28 | the token is afterwards a card; an existing card is kept unchanged, a new one starts with label "" and balance 0; no other card, row or booth changes |
| Db.GetCard | server.js:29 | finds a card exactly when the token is a card, and returns that card |
| Db.SetLabel | server.js:31 | renames only the named card, keeps its balance; a missing token changes nothing |
| Db.SetBal | server.js:32 | writes the balance of only the named card, keeps its label; a missing token changes nothing |
| Db.UpdateBal | server.js:33 | adds the delta to the named card's balance only; a missing token changes nothing |
| Db.InsertTx | server.js:34 | appends exactly one row with the next id and the given fields, advances the id counter, leaves cards and booths alone |
| Db.TxsFor | server.js:35 | lists exactly the rows of the token |
| Audit.TxsForNewestFirst | server.js:35 | `ORDER BY id DESC`: in an ordered ledger, ids strictly decrease along a card's history |
| Audit.RowsOfAscending | server.js:35 | picking out one token's rows keeps the ids ascending |
| Db.Reverse | server.js:35 | the newest-first order of the history query: position i holds row n-1-i |
| Db.GetBoothByUser | server.js:37 | finds a booth exactly when the username is registered |
| Db.InsertBooth | server.js:39 | fails exactly when the username is taken (the UNIQUE constraint); otherwise adds the booth and nothing else |
| Db.UpdateBoothInfo | server.js:40 | sets the label; keeps the stored password when the new one is empty; an unknown username changes nothing |
| Db.DeleteBoothUser | server.js:41 | removes exactly that booth |
| Db.DeleteCard | server.js:42 | removes exactly that card and keeps every other card |
| Db.DeleteTx | server.js:43 | keeps exactly the rows of other tokens |
| Db.Without | server.js:43 | a row survives the delete exactly when it belongs to another token |
| Db.UpsertCard | server.js:686 | the INSERT … ON CONFLICT DO UPDATE statement: the card afterwards has exactly the given label and balance, whether it existed or not; no row is written |
| Identity.Segments | server.js:50 | the cookie header cut at ";" with each piece trimmed, shared by `getBooth` and `checkLogin`; `Identity.SegmentsAround` states how it splits |
| Identity.FirstBooth | server.js:50 | the `find`: the first trimmed segment starting with "booth=", and none before it does |
| Identity.GetBooth | server.js:48-52 | the booth name is what follows "booth=" in the first such segment, up to the next "="; "" when there is no such segment; never contains "=" |
| Identity.BoothCookieRoundTrip | server.js:48-52 | the cookie set at booth login reads back as the same username |
| Identity.FirstBoothWins | server.js:50 | with several booth cookies, the first one counts |
| Identity.GetBoothWhole | server.js:51 | when the value holds no "=", the whole value is the booth name |
| Identity.SegmentsAround | server.js:50 | cutting at a ";" splits the segment list in two |
| Identity.IsAdmin | server.js:55-58 | `checkLogin`: some trimmed segment is exactly "adm=1"; `Identity.AdminEitherSide`, `Identity.AdminCookieAdmits` and `Identity.AdminLogin` state its laws |
| Identity.AdminEitherSide | server.js:57 | a cookie header is admin exactly when the part before or the part after some ";" is |
| Identity.AdminCookieAdmits | server.js:57 | appending "; adm=1" to any cookie header makes it admin |
| Identity.AdminPassword | server.js:53 | the environment's password when it is set and non-empty, else the built-in default |
| Identity.AdminLogin | server.js:231-238 | succeeds exactly for the configured password, and the cookie it sets passes the admin check |
| Identity.BoothLogin | server.js:269-277 | succeeds exactly when the username is registered and the password equals the stored one; the cookie is "booth=" followed by the username |
| Routes.ReadBack | server.js:339-340 | the balance of the card after the write; an exception (500) when the token has no card |
| Routes.Move | server.js:337-340 | one row with the next id, then the balance moves by the delta; a token with no card still gets its row, no card appears, and the reply is a server error |
| Routes.BoothApply | server.js:331-341 | refusals in order: missing token or non-integer delta, then delta >= 0, then no booth cookie, and each leaves the store as it was; otherwise a booth-sourced row stamped with the cookie's booth name |
| Routes.AdminApply | server.js:651-658 | refuses a missing token or non-integer delta and changes nothing; otherwise an admin row with no booth, and the balance moves by the delta |
| Routes.BalanceOr0 | server.js:662 | the card's balance, or 0 when there is no card |
| Routes.AdminSetBalance | server.js:659-668 | records the difference between the new value and the old balance (or 0) as an admin row with reason "set-balance", then the card holds exactly the value |
| Routes.LabelRoute | server.js:669-674 | refuses a missing token; otherwise renames the card, and a missing label clears the name |
| Routes.BulkRoute | server.js:677-691 | the import never touches the ledger rows, the id counter or the booths, and always redirects |
| Routes.BodyInt | server.js:694 | `parseInt` on a body field; a missing field is NaN |
| Routes.Upsert | server.js:692-705 | tests the untrimmed token, then stores the card under the trimmed token with the trimmed label and the parsed balance; no row is written |
| Routes.DeleteRoute | server.js:706-713 | removes the card and all its rows and nothing else; without a token nothing happens; the reply is always the redirect |
| Routes.BoothCreate | server.js:716-721 | all three fields are required; a taken username is refused and nothing changes; otherwise the trimmed username gets the trimmed label and the password as sent |
| Routes.BoothUpdate | server.js:722-727 | requires the username; updates the booth through the trimmed fields; cards and ledger are untouched |
| Routes.BoothDelete | server.js:728-733 | requires the username; removes the booth under the trimmed name and nothing else |
| Routes.OpenCard | server.js:167-170 | the card page creates the card on first sight (balance 0) and shows it |
| Routes.Dispatch | server.js:331-750 | only the three ledger routes add rows and advance the id counter, and each appends at most one row, with the next id, keeping all earlier rows; only card delete removes rows, and it adds none; cards change only through the card routes |
| Routes.Handle | server.js:347 | without the "adm=1" cookie every admin route redirects to login and changes nothing; logins and the download never change the store |
| Laws.MoveKeepsDrift | server.js:337-338 | an apply moves a card's balance and its ledger sum by the same amount, so no card's drift changes |
| Laws.SetBalanceKeepsDrift | server.js:662-665 | set-balance logs exactly the difference it writes, so no card's drift changes |
| Laws.DeleteKeepsDrift | server.js:709-710 | deleting a card with its rows leaves every other card's drift alone |
| Laws.UpsertDrift | server.js:692-705 | an upsert leaves the card's drift at the new balance minus the untouched ledger sum |
| Laws.UpsertBreaksConsistency | server.js:692-705 | an upsert to any value other than the ledger sum leaves the ledger inconsistent with the balances |
| Laws.MoveKeepsSound | server.js:337-338 | an apply to an existing card keeps balances equal to ledger sums, every row attached to a card, and ids ascending |
| Laws.BoothApplyKeepsSound | server.js:331-341 | booth apply to an existing card keeps the store sound |
| Laws.AdminApplyKeepsSound | server.js:651-658 | admin apply to an existing card keeps the store sound |
| Laws.SetBalanceKeepsSound | server.js:659-668 | set-balance on an existing card keeps the store sound |
| Laws.DeleteKeepsSound | server.js:706-713 | card delete keeps the store sound |
| Laws.OpenCardKeepsSound | server.js:167-170 | opening a card page keeps the store sound |
| Laws.LabelKeepsSound | server.js:669-674 | renaming keeps the store sound |
| Laws.HandleKeepsSound | server.js:331-733 | every request except bulk and upsert keeps the store sound, provided the ledger routes name an existing card |
| Laws.EmptyIsSound | server.js:12-23 | the empty database is sound and well sourced |
| Laws.DeleteKeepsOrdered | server.js:709 | card delete keeps the ids ascending and below the next id |
| Laws.HandleKeepsOrdered | server.js:331-733 | every request, including bulk, upsert and applies to unknown tokens, keeps the ids ascending and below the next id |
| Laws.HandleKeepsDrift | server.js:331-713 | in any state, every request except bulk and upsert leaves each surviving card's balance minus its ledger sum unchanged |
| Laws.UpsertKeepsOtherDrift | server.js:692-705 | an upsert changes the drift of no card other than the one it names |
| Laws.BulkDrift | server.js:677-691 | the bulk load keeps the drift of every card no accepted line names; a named card's drift becomes the balance of its last accepted entry minus its ledger sum, and `Bulk.LastLineWins` shows that entry is the card's last accepted line |
| Laws.UnknownTokenDangles | server.js:337-340 | a booth apply to a token with no card appends the row, creates no card, and answers with a server error |
| Laws.DanglingRowSurfaces | server.js:169 | when that card is later opened, it starts at 0 while its ledger sum is the dangling delta |
| Laws.HandleKeepsSourced | server.js:337 | after any request, booth rows are still deductions stamped with a booth name, and admin rows still carry no booth |
| Laws.BoothApplySourced | server.js:337 | a booth apply writes only negative rows stamped with a non-empty booth |
| Laws.AdminApplySourced | server.js:654 | an admin apply writes only rows with an empty booth |
| Laws.SetBalanceSourced | server.js:664 | a set-balance writes only rows with an empty booth |
| Laws.DeleteCascades | server.js:709-710 | after a card delete the token has neither a card nor any history |
| Laws.CreatedBoothLogsIn | server.js:716-721 | a booth just created logs in under its trimmed username with the password it was given |
| Laws.UpdatedBoothLogsIn | server.js:722-727 | after an update, an empty password keeps the old one working; a new password replaces it and the old one stops working |
| Laws.DeletedBoothLocked | server.js:728-733 | a deleted booth can no longer log in |
| Laws.BoothSessionStampsRows | server.js:273 | the cookie from a booth login, sent with a deduction, appends exactly one booth row carrying that username; a booth whose username is "" is refused instead |
| Laws.OpenCardIdempotent | server.js:28 | opening a card page twice is opening it once; opening a known card changes nothing |
| Audit.SumWithout | server.js:43 | deleting a token's rows zeroes its ledger sum and keeps every other token's sum |
| Audit.WithoutAscending | server.js:36 | deleting rows keeps the ids ascending |
| Bulk.SplitLines | server.js:678 | `split(/\r?\n/)`; `Bulk.LinesOfRendered` and `Bulk.LinesOfCrLf` state what it yields |
| Bulk.Lines | server.js:678 | the split lines, trimmed, empty ones dropped; `Bulk.NonEmptyMembers` and `Bulk.LinesOfRendered` state its laws |
| Bulk.DropCr | server.js:678 | removes one trailing carriage return before the line feed it came with (`\r?\n`) |
| Bulk.NonEmptyMembers | server.js:678 | `filter(Boolean)` keeps exactly the non-empty lines |
| Bulk.FieldsClean | server.js:681 | no parsed field holds a comma or starts or ends with a space |
| Bulk.ParseLine | server.js:681-685 | a line is skipped exactly when its first field is empty or its balance field (or "0" when missing or empty) does not parse; otherwise the entry holds the first field, the parsed balance and the third field or "" |
| Bulk.AcceptedMembers | server.js:685 | an entry reaches the database exactly when some line parsed to it, so the lines `Bulk.ParseLine` rejects are skipped |
| Bulk.ApplyAll | server.js:679-688 | writing the entries touches no row, id or booth |
| Bulk.Import | server.js:677-691 | the whole import touches no row, id or booth |
| Bulk.LastFor | server.js:686 | the last entry for a token: an entry for it that no later entry for the same token follows; none when no entry names it |
| Bulk.LastEntryWins | server.js:686 | after the overwrites, a token holds the label and balance of its last entry in the list; a token not mentioned keeps its card (or stays absent) |
| Bulk.LastAcceptedLine | server.js:680-686 | skipping keeps line order: the last accepted entry for a token is the parse of a line that no later accepted line for that token follows; with none, no line for it was accepted |
| Bulk.LastLineWins | server.js:680-686 | the same against the text's lines: the entry whose values stick is `Bulk.ParseLine` of some line, and no later line parses to an entry for that token |
| Bulk.DefaultBalance | server.js:683-684 | a line with only a token, or with an empty balance field, gives balance 0 and label "" |
| Bulk.ParseFormat | server.js:681-685 | a rendered entry parses back to itself |
| Bulk.LinesOfRendered | server.js:678 | the lines of rendered text are exactly the rendered entries |
| Bulk.LinesOfCrLf | server.js:678 | with CRLF line ends, the lines are the same |
| Bulk.ImportCrLf | server.js:678 | importing CRLF text is importing LF text |
| Bulk.ImportRendered | server.js:677-691 | importing rendered entries writes exactly those entries, in order |
| Export.LabelOf | server.js:742-746 | the label comes from the current card, and is "" for a token with no card |
| Export.Project | server.js:737-749 | one exported row per transaction, in ledger order, with the card's current label; ascending ids when the ledger is ordered |
| Export.Quote | server.js:747-748 | wraps the text in quotes with every inner quote doubled; `Export.QuoteRoundTrip` reads it back |
| Export.RenderRow | server.js:749 | the eight columns joined by commas; `Export.RowRoundTrip` reads it back |
| Export.Csv | server.js:736-750 | the byte-order mark, the header, then one line per transaction; `Export.CsvReadsBack` reads it back |
| Export.QuoteRoundTrip | server.js:747-748 | a quoted field with doubled inner quotes reads back as the original text, followed by what came after it |
| Export.RowRoundTrip | server.js:749 | a rendered row parses back to the same id, token, label, delta, source, reason, booth and time |
| Export.BodyLines | server.js:745-750 | when no text field of any row holds a line feed, the body is one line per row, each ending in a line feed |
| Export.CsvReadsBack | server.js:736-750 | the file is the byte-order mark, the header, then one line per transaction, and each line reads back as that transaction with its card's current label |
| Numbers.ParseInt | server.js:683 | `parseInt(s, 10)` is a number exactly when a digit follows the optional leading space and sign; its magnitude is the value of the longest digit run there, and the sign decides its sign |
| Numbers.Show | server.js:749 | `String(n)`: the decimal rendering of an integer; `Numbers.ShowShape` and `Numbers.ParseShow` state its laws |
| Numbers.ParseShow | server.js:683 | the decimal rendering of any integer parses back to it, whatever non-digit text follows |
| Text.Trim | server.js:50 | `String.prototype.trim`; `Text.TrimShape` and `Text.TrimIdempotent` state its laws |
| Text.Split | server.js:50 | `split` on one character, always at least one piece; `Text.SplitPieces` states its inverse |
| Text.TrimIdempotent | server.js:50 | trimming twice is trimming once |
| Text.TrimShape | server.js:50 | what trim leaves has no space at either end and is no longer than the input |
| Text.SplitPieces | server.js:50 | no piece of a split holds the separator, and joining the pieces with it gives the text back |

## Left out

- HTML pages, status codes and headers, redirects and their `ref` targets. The
  reply is an abstract `Reply`.
- The listing pages: the dashboard, `/cards` and `/booths`. Their ordering is
  not modelled. The `listCards` and `listAllBooths` queries are used only by
  these pages and by the CSV label lookup, which is modelled as a map. The
  history page's query is `Db.TxsFor`, and its newest-first order is proved in
  `Audit.TxsForNewestFirst`.
- `/`, `/booths-info`, `/settings`, `site_content` and the logouts. None of
  them touch cards, the ledger or booths.
- `reader.js`, the NFC reader client. It is not part of this model.
- `encodeURIComponent`/`decodeURIComponent` on the booth cookie. The model
  carries the value raw.
- Identity.BoothCookieRoundTrip: requires a username without ";" or "=" and
  with no space at either end, because the cookie value is not encoded in the
  model.
- Identity.FirstBoothWins: requires the same of the username, for the same
  reason.
- Laws.BoothSessionStampsRows: requires the same of the username, for the
  same reason.
- Timestamps. `datetime('now')` is the parameter `at`, and `updated_at` is not
  modelled.
- Concurrency, and SQLite's transaction and exception mechanics. Each request
  is one atomic step.
- Numbers.ParseInt: returns an unbounded integer. In JavaScript, a digit run
  above 2^53 loses precision, and one of about 310 digits or more is
  `Infinity`, which `Number.isInteger` rejects.
- Routes.Upsert: the balance is an unbounded integer. In the source, a balance
  text that `parseInt` reads as `Infinity` is answered with 400, and a rounded
  value is stored as rounded; neither is modelled.
- Bulk.Import: the balance is an unbounded integer. In the source, a line whose
  balance reads as `Infinity` is skipped, and a balance above 2^53 is stored
  rounded; neither is modelled.
- Routes.Move: delta and balance are unbounded integers. JSON deltas above
  2^53 arrive rounded, and SQLite's 64-bit `balance+?` overflow is not
  modelled.
- Routes.AdminSetBalance: value, old balance and their difference are
  unbounded integers. JSON rounding above 2^53 and SQLite's 64-bit range are
  not modelled.
- Routes.Upsert and Routes.BodyInt: a `balance` field that is not a string
  (a JSON number) is not modelled; form posts always send strings.
- Export.RowRoundTrip: requires a token and label free of commas, because the
  export quotes only the reason and booth columns.
- Export.BodyLines: requires that no token, label, reason, booth or time holds
  a line feed. The model's reader cuts the body at every line feed, while
  under RFC 4180 a line feed inside the quoted reason or booth stays within
  its record.
- Export.CsvReadsBack: states the read-back for a non-empty ledger whose
  tokens and labels are free of commas, and whose tokens, labels, reasons,
  booths and times hold no line feed. The reason is free text from the
  client, so a reason with a line feed is outside this lemma, for the same
  reason as for `Export.BodyLines`.
- Laws.HandleKeepsSound: bulk and upsert are excluded, because they overwrite
  balances without a ledger row (`Laws.UpsertBreaksConsistency`).

Where the code and its documented behaviour differ, the model follows the code:

- `/booth/update` for an unknown username changes nothing and still redirects.
  It does not report "not found".
- `/card/upsert` tests the token before trimming it. A token of only spaces
  therefore passes the test and stores a card under the empty token.
- An apply to a token with no card still appends its ledger row before the
  read-back fails (`Laws.UnknownTokenDangles`).
- `/booth/create` tests the username before trimming it. A username of only
  spaces is therefore stored as "". That booth can log in, but its cookie
  `booth=` reads back as no booth, so every deduction it sends is refused
  (`Laws.BoothSessionStampsRows`).
