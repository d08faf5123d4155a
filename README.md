# Rifa: a verified model of the raffle app's rules

The app sells raffle tickets against deposit vouchers ("comprovantes").

- A player uploads a voucher. An optional automatic validator may approve it at once; otherwise an admin approves or rejects it later.
- Each approved amount becomes five-digit raffle numbers in the single open raffle ("sorteio").
- Admins create raffles, draw winners (manual list, automatic pick or simulated federal lottery numbers), attach videos, and administer coupons.
- Players see their numbers, history and totals; admins see dashboards and search players.

All state lives in the browser's `localStorage` as six JSON arrays: `users`, `comprovantes`, `numerosRifa`, `sorteios`, `cupons` and `systemConfig`.

This project models those rules in Dafny.

- **Store.** `Storage.LocalStorage` is a class whose fields are the six arrays.
- **Handlers.** The handlers that overwrite the store are methods that `modify` it. Each states the whole new store, including the fields it leaves alone.
- **Read-side screens.** These are functions over the stored sequences, with lemmas tying them together.
- **In-place sorts.** The newest-first sorts of the history screen and of the admin dashboard reorder an array in place. `ArraySort.SortDescInPlace` does that on a Dafny `array` and is proved equal to the stable descending sort `Seqs.SortDesc`.
- **Randomness.** Every `Math.random()` draw is an input oracle `rand: nat -> real` with values in `[0, 1)`.
- **Shuffle.** The comparator shuffle of the automatic draw is an input permutation of indices.
- **Clocks and ids.** Clock readings and `Date.now()` ids are parameters.
- **Amounts and timestamps.** Amounts are exact `real`s and timestamps are `int`s.

Modules and the files they model:

| module | models |
|---|---|
| `Records` | the record shapes the components read (`id_usuario`, `id_sorteio`, `data_envio`, `isAdmin`, ...) and shared queries |
| `Storage` | `localStorage` as a class with one field per stored array |
| `Raffle` | `src/utils/raffle.ts` |
| `Auth` | `src/utils/auth.ts` |
| `VoucherManagement` | `src/components/Admin/VoucherManagement.tsx` |
| `VoucherUpload` | `src/components/Upload/VoucherUpload.tsx` |
| `RaffleManagement` | `src/components/Admin/RaffleManagement.tsx` |
| `CouponManagement` | `src/components/Admin/CouponManagement.tsx` |
| `RegisterForm`, `LoginForm` | `src/components/Auth/RegisterForm.tsx`, `src/components/Auth/LoginForm.tsx` |
| `UserHistory` | `src/components/History/UserHistory.tsx` |
| `UserNumbers` | `src/components/Numbers/UserNumbers.tsx` |
| `PlayerSearch` | `src/components/Admin/PlayerSearch.tsx` |
| `UserManagement` | `src/components/Admin/UserManagement.tsx` |
| `AdminDashboard` | `src/components/Admin/AdminDashboard.tsx` |
| `UserDashboard` | `src/components/Dashboard/UserDashboard.tsx` |
| `ArraySort` | the in-place `Array.prototype.sort` calls with a descending-date comparator |
| `Text`, `Seqs`, `Wrappers` | the JavaScript string and array built-ins these files use, and `Option` |

Where the record interfaces in `src/types/index.ts` and the components disagree on field names, the model follows the components. The components are the code that runs.

## Model

| member | source | states |
|---|---|---|
| Raffle.BlockValue | src/utils/raffle.ts:3-5 | The block value is the stored one unless that is absent or 0, in which case it is 100. It is never 0. |
| Raffle.NumbersPerBlock | src/utils/raffle.ts:3-5 | Numbers per block is the stored value unless that is absent or 0, in which case it is 10. It is never 0. |
| Raffle.TicketCount | src/utils/raffle.ts:7-11 | The number of loop iterations is `floor(valor / blockValue) * numbersPerBlock` when that bound is non-negative, and 0 otherwise. |
| Raffle.BelowOneBlockYieldsNothing | src/utils/raffle.ts:7-11 | Any amount in `[0, blockValue)` yields no numbers. |
| Raffle.DefaultRate | src/utils/raffle.ts:3-8 | With an empty configuration, a non-negative deposit gets `floor(valor / 100) * 10` numbers. |
| Raffle.TicketCountMonotone | src/utils/raffle.ts:7-8 | With a positive block value and numbers per block, a larger deposit never gets fewer numbers. |
| Raffle.DrawNumber | src/utils/raffle.ts:12 | `floor(r * 90000) + 10000` lies in [10000, 99999] for every draw `r` in [0, 1). |
| Raffle.FiveDigitString | src/utils/raffle.ts:12 | The decimal rendering of a number in [10000, 99999] has exactly five digits, no leading zero, and reads back as that number. |
| Raffle.TicketString | src/utils/raffle.ts:12 | Each generated string is five digits whose value lies in [10000, 99999]. |
| Raffle.GenerateRaffleNumbers | src/utils/raffle.ts:1-17 | The loop returns exactly `TicketCount` strings, and the i-th string is the rendering of the i-th draw. Every string is five digits. |
| Raffle.SimulateAIValidation | src/utils/raffle.ts:37-69 | If `aiValidationEnabled` is exactly false, the result is not approved and reads back the declared amount. Otherwise it is approved exactly when the accuracy draw exceeds 0.1, and an approved result reads back the declared amount. An enabled validator that rejects reads back 80% of the declared amount, so a positive amount is misread as less. |
| Auth.Step1 | src/utils/auth.ts:12 | On a digit string, the first replace puts a dot after the third digit when there is a fourth. |
| Auth.Step2 | src/utils/auth.ts:13 | The second replace puts a dot after the sixth digit when there is a seventh. |
| Auth.Step3 | src/utils/auth.ts:14 | The third replace puts a dash after the ninth digit when there is a tenth. |
| Auth.Step4 | src/utils/auth.ts:15 | The last replace cuts everything after the two digits that follow the dash. |
| Auth.FormatCPFLayout | src/utils/auth.ts:10-16 | `formatCPF` equals a fixed punctuation layout of the input's digits, with at most 11 digits kept. |
| Auth.LayoutDigits | src/utils/auth.ts:10-16 | Dropping the punctuation from the layout gives back the first `min(11, n)` digits. |
| Auth.FormatCPFDigits | src/utils/auth.ts:10-16 | The digits of `formatCPF(x)` are the first `min(11, n)` digits of `x`, in order. |
| Auth.FormatCPFEleven | src/utils/auth.ts:11-15 | An input with exactly 11 digits is formatted as `DDD.DDD.DDD-DD`. |
| Auth.FormatCPFShort | src/utils/auth.ts:11-15 | An input with at most 3 digits comes back as its bare digits. |
| Auth.LayoutOfPrefix | src/utils/auth.ts:14-15 | The layout of a digit string depends only on its first 11 digits. |
| Auth.FormatCPFIdempotent | src/utils/auth.ts:10-16 | `formatCPF` is idempotent, so reformatting on every keystroke is stable. |
| Auth.ValidateCPF | src/utils/auth.ts:18-21 | Validity means exactly 11 digits after the non-digits are dropped; there is no check digit. So a valid CPF has at least 11 characters, and a string of digits only is valid exactly when it has 11 of them. |
| Auth.ValidateFormattedCPF | src/utils/auth.ts:10-21 | `validateCPF(formatCPF(x))` holds exactly when `x` has at least 11 digits. |
| Auth.ValidateEmailIff | src/utils/auth.ts:23-26 | Given an `@`, the e-mail pattern matches exactly when there is no white space, that `@` is the only one and not first, and the domain has a dot that is neither its first nor its last character. |
| Auth.ValidateEmailNeedsAt | src/utils/auth.ts:23-26 | Text without `@` is never a valid e-mail. |
| Records.CurrentRaffle | src/components/Admin/VoucherManagement.tsx:50 | The current raffle is an open stored raffle, and no raffle before it in the list is open. It is absent exactly when no stored raffle is open. The dashboards look up their current raffle the same way. |
| Records.StatusCountsAddUp | src/components/Admin/AdminDashboard.tsx:35-37 | The pending, approved and rejected counts add up to the number of vouchers. |
| Records.ApprovedAtMostTotal | src/components/Admin/AdminDashboard.tsx:40-43 | With non-negative amounts, the approved sum lies between 0 and the sum of all amounts. |
| Records.Tag | src/components/Admin/VoucherManagement.tsx:52-58 | Tagging keeps the generated numbers in order and marks each with the owner and the raffle. |
| Raffle.TagIssues | src/components/Admin/VoucherManagement.tsx:48-61 | Appending the tagged numbers keeps the stored records as a prefix and adds one record per generated number, the k-th new one owned by the voucher's user, in the open raffle, holding the k-th draw. |
| VoucherManagement.FilteredComprovantes | src/components/Admin/VoucherManagement.tsx:31-33 | The filter `'all'` keeps every voucher. Any other filter keeps exactly the vouchers with that status. |
| VoucherManagement.FilteredKeepsOrder | src/components/Admin/VoucherManagement.tsx:31-33 | Filtering distributes over concatenation, so the relative order is kept. |
| VoucherManagement.Tabs | src/components/Admin/VoucherManagement.tsx:91-95 | Each tab count is the size of its filter. Pending plus approved plus rejected equals "Todos". |
| VoucherManagement.WithStatus | src/components/Admin/VoucherManagement.tsx:39-45 | Only the vouchers with the target's id change. They become the target with the new status; every other voucher keeps its value and position. |
| VoucherManagement.WithStatusNoMatch | src/components/Admin/VoucherManagement.tsx:39-45 | If no voucher has the target's id, the list is unchanged. |
| VoucherManagement.WithStatusMovesOne | src/components/Admin/VoucherManagement.tsx:39-45 | With a unique id, a status change moves exactly one voucher from its old status count to the new one. |
| VoucherManagement.ApproveOfferedMovesTab | src/components/Admin/VoucherManagement.tsx:194-211 | Approving a voucher for which the buttons are shown (a pending one) moves one voucher from the pending tab to the approved tab and keeps the total. |
| VoucherManagement.HandleApprove | src/components/Admin/VoucherManagement.tsx:35-66 | The voucher is approved by id. With an open raffle, exactly `TicketCount` numbers are appended, each tagged with the voucher's owner and the first open raffle, and the old list is kept as a prefix. Without one, no numbers are added. Nothing else changes. |
| VoucherManagement.HandleReject | src/components/Admin/VoucherManagement.tsx:68-80 | The voucher is rejected by id. `numerosRifa` and every other store field are untouched. |
| VoucherUpload.LoadUploadConfig | src/components/Upload/VoucherUpload.tsx:22-29 | The minimum deposit, block value and numbers per block default to 100, 100 and 10 when they are absent or 0. Block value and numbers per block agree with the generator's. |
| VoucherUpload.AmountOrZero | src/components/Upload/VoucherUpload.tsx:118-122 | An amount string that does not parse counts as 0. |
| VoucherUpload.CalculateNumbers | src/components/Upload/VoucherUpload.tsx:118-122 | The preview is `floor(amount / blockValue) * numbersPerBlock` of the parsed amount. It is 0 for a string without digits. |
| VoucherUpload.PreviewMatchesGenerated | src/components/Upload/VoucherUpload.tsx:118-122 | For a parsable amount, a non-negative preview equals the number of tickets generated on approval. A negative preview means no tickets. |
| VoucherUpload.HandleSubmit | src/components/Upload/VoucherUpload.tsx:44-116 | Nothing happens without an amount, an image and a user. Otherwise the voucher is appended with the validator's reading, approved exactly when the validator approves. Numbers are appended only when it is approved and a raffle is open. The message reports `TicketCount` either way. |
| RaffleManagement.EmbedUrl | src/components/Admin/RaffleManagement.tsx:51-60 | A URL without `youtube.com/watch?v=` or `youtu.be/` is kept as is. Otherwise the result is the embed base plus the video id, which is cut at `&` (watch form) or at `?` (short form); `EmbedWatchUrl` and `EmbedShortUrl` pin the id down for each form. |
| RaffleManagement.EmbedWatchUrl | src/components/Admin/RaffleManagement.tsx:51-60 | `https://www.youtube.com/watch?v=ID&...` maps to `https://www.youtube.com/embed/ID`. |
| RaffleManagement.EmbedShortUrl | src/components/Admin/RaffleManagement.tsx:57-59 | `https://youtu.be/ID?...` maps to `https://www.youtube.com/embed/ID` when the URL is not also a watch URL. |
| RaffleManagement.ConvertToIframe | src/components/Admin/RaffleManagement.tsx:51-63 | The result is iframe markup that starts with the fixed opening and the `src="` attribute. |
| RaffleManagement.CloseOpen | src/components/Admin/RaffleManagement.tsx:30-33 | Every open raffle becomes closed with `data_fim` set to now, closed raffles are unchanged, and none stays open. |
| RaffleManagement.NewRaffle | src/components/Admin/RaffleManagement.tsx:35-41 | The new raffle is open, starts now, and has the trimmed name, no end, no winner and no winning numbers. It has a video exactly when the link is not blank. |
| RaffleManagement.CreatedIsTheOnlyOpen | src/components/Admin/RaffleManagement.tsx:27-45 | After closing all and appending the new open raffle, it is the only open raffle and the current one. |
| RaffleManagement.CreateRaffle | src/components/Admin/RaffleManagement.tsx:27-49 | A blank name changes nothing. Otherwise every open raffle is closed, the new one is appended last, and it is the only open raffle. Other store fields are untouched. |
| RaffleManagement.ManualWinners | src/components/Admin/RaffleManagement.tsx:82-87 | The winners are the comma-split, trimmed, non-empty pieces, each non-empty and without surrounding space. |
| RaffleManagement.ManualWinnersAppend | src/components/Admin/RaffleManagement.tsx:82-87 | Pieces keep input order: winners of `a,b` are the winners of `a` followed by those of `b`. |
| RaffleManagement.ManualWinnersSingle | src/components/Admin/RaffleManagement.tsx:82-87 | A single trimmed piece without commas is taken as the only winner. |
| RaffleManagement.AutoWinners | src/components/Admin/RaffleManagement.tsx:88-93 | The automatic pick yields exactly `min(3, n)` numbers, the i-th taken from the record at the i-th shuffled index, so all come from distinct records. |
| RaffleManagement.AutoWinnersDrawn | src/components/Admin/RaffleManagement.tsx:88-99 | Every automatic winner is the number of one of this raffle's records, so a raffle with numbers always gets a winner. |
| RaffleManagement.GenerateFederalNumbers | src/components/Admin/RaffleManagement.tsx:119-126 | The loop returns exactly 5 strings, each five digits with value in [10000, 99999], from the first five draws. |
| RaffleManagement.FirstWinner | src/components/Admin/RaffleManagement.tsx:99 | There is no winner exactly when no record's number won. Otherwise the winner owns the first record whose number won. |
| RaffleManagement.ReplaceRaffle | src/components/Admin/RaffleManagement.tsx:101-110 | Only raffles with the target id are replaced; every other raffle keeps its value and position. |
| RaffleManagement.ClosingKeepsAtMostOneOpen | src/components/Admin/RaffleManagement.tsx:101-110 | Replacing a raffle by a closed one never increases the number of open raffles. |
| RaffleManagement.ProcessRaffleResult | src/components/Admin/RaffleManagement.tsx:69-117 | A raffle without numbers, or a manual list without pieces, aborts and leaves the raffles unchanged. Otherwise only this raffle is replaced: it is closed, `numeros_premiados` holds the winners of the chosen mode, and `ganhador_id` is the first winning record's owner. |
| RaffleManagement.StoredVideo | src/components/Admin/RaffleManagement.tsx:128-133 | A blank link clears the video. Any other link is stored as iframe markup. |
| RaffleManagement.UpdateVideoLink | src/components/Admin/RaffleManagement.tsx:128-139 | Only the target raffle changes, and its `video_link` becomes the converted link, or none for a blank link. Other store fields are untouched. |
| RaffleManagement.GetRaffleStats | src/components/Admin/RaffleManagement.tsx:141-152 | `totalNumbers` counts this raffle's numbers and `participants` counts their distinct owners. There are never more participants than numbers, and none exactly when there are no numbers. |
| CouponManagement.GetCouponStatus | src/components/Admin/CouponManagement.tsx:79-94 | The status is Inativo before Expirado before Esgotado, otherwise Ativo. Each status is characterised exactly. |
| CouponManagement.UnlimitedStatus | src/components/Admin/CouponManagement.tsx:79-94 | A coupon without expiry and with no usage limit (absent or 0) is Ativo or Inativo according to `ativo` alone. |
| CouponManagement.ExpiryIsPermanent | src/components/Admin/CouponManagement.tsx:79-82 | Once expired, a coupon stays expired at every later time. |
| CouponManagement.NewCoupon | src/components/Admin/CouponManagement.tsx:30-40 | A created coupon has the trimmed, upper-cased code, is active, has zero uses, and carries the given limit and expiry. |
| CouponManagement.NewCouponIsActive | src/components/Admin/CouponManagement.tsx:30-40 | A new coupon with a positive or absent limit and an expiry not in the past shows as Ativo. |
| CouponManagement.CodeNormalisationIdempotent | src/components/Admin/CouponManagement.tsx:32 | Normalising an already normalised code changes nothing. |
| CouponManagement.CreateCoupon | src/components/Admin/CouponManagement.tsx:27-54 | A blank code or a non-positive value changes nothing. Otherwise the new coupon is appended last. Other store fields are untouched. |
| CouponManagement.ReplaceCoupon | src/components/Admin/CouponManagement.tsx:56-57 | Only coupons with the given id are replaced; the rest keep value and position. |
| CouponManagement.ReplaceCouponIdempotent | src/components/Admin/CouponManagement.tsx:56-57 | Repeating the same update changes nothing more. |
| CouponManagement.UpdateCoupon | src/components/Admin/CouponManagement.tsx:56-61 | The store's coupons become the replaced list; nothing else changes. |
| CouponManagement.WithoutCoupon | src/components/Admin/CouponManagement.tsx:65 | The result holds exactly the coupons whose id differs from the given one. |
| CouponManagement.WithoutCouponKeepsOrder | src/components/Admin/CouponManagement.tsx:65 | Deletion distributes over concatenation, so the remaining coupons keep their order. |
| CouponManagement.WithoutAbsentCoupon | src/components/Admin/CouponManagement.tsx:65 | Deleting an id that no coupon has leaves the list unchanged. |
| CouponManagement.DeleteCoupon | src/components/Admin/CouponManagement.tsx:63-69 | Without confirmation nothing changes. With it, exactly the coupons with that id are removed. |
| CouponManagement.Toggled | src/components/Admin/CouponManagement.tsx:72-74 | Only coupons with the id have `ativo` flipped; the rest are unchanged. |
| CouponManagement.ToggleTwice | src/components/Admin/CouponManagement.tsx:71-77 | Toggling twice restores the list. |
| CouponManagement.ToggleStatus | src/components/Admin/CouponManagement.tsx:71-94 | Deactivating shows Inativo, and activating shows anything but Inativo. |
| CouponManagement.ToggleCouponStatus | src/components/Admin/CouponManagement.tsx:71-77 | The store's coupons become the toggled list; nothing else changes. |
| RegisterForm.HandleCPFChange | src/components/Auth/RegisterForm.tsx:23-26 | Only the CPF field changes, to the formatted input. It is valid exactly when the typed text has at least 11 digits. |
| RegisterForm.CPFChangeStable | src/components/Auth/RegisterForm.tsx:23-26 | Re-applying the change handler to the formatted CPF changes nothing. |
| RegisterForm.RegisterErrorsEmptyIff | src/components/Auth/RegisterForm.tsx:33-45 | There are no errors exactly when the trimmed name is non-empty, the e-mail and CPF are valid, the password has at least 6 characters, and it equals its confirmation. |
| RegisterForm.RegisterErrorsOrdered | src/components/Auth/RegisterForm.tsx:35-45 | Errors come in field order (name, e-mail, CPF, password, confirmation), at most one per field. |
| RegisterForm.RegisterErrorsByField | src/components/Auth/RegisterForm.tsx:35-45 | Each message appears exactly under its condition: missing versus invalid e-mail and CPF, empty versus short password, and the independent confirmation mismatch. |
| RegisterForm.InErrorsOf | src/components/Auth/RegisterForm.tsx:35-45 | A message is in the list exactly when the condition under which its `if` pushes it holds. |
| RegisterForm.ErrorsOfOrdered | src/components/Auth/RegisterForm.tsx:35-45 | Each field pushes at most one message, and the fields push in order: name, e-mail, CPF, password, confirmation. |
| RegisterForm.HandleSubmit | src/components/Auth/RegisterForm.tsx:28-58 | The errors are the ordered list. A registration request is produced exactly when the form is valid, and it carries the trimmed name. |
| LoginForm.HandleSubmit | src/components/Auth/LoginForm.tsx:20-38 | There are no errors exactly when the e-mail is valid and the password non-empty. The e-mail error precedes the password error, with at most two errors. Credentials are passed on exactly when there are no errors. |
| ArraySort.InsertFrom | src/components/History/UserHistory.tsx:32 | One pass of the in-place sort: the element at `i` is inserted into the sorted suffix after it, and the prefix is untouched. |
| ArraySort.SortDescInPlace | src/components/Admin/AdminDashboard.tsx:60-61 | The array is reordered in place into the stable newest-first order `Seqs.SortDesc` of its old contents. |
| UserHistory.Entry | src/components/History/UserHistory.tsx:19-29 | An entry pairs a raffle with exactly the given numbers of that raffle. It is never a winner when the raffle has no winning numbers. |
| UserHistory.History | src/components/History/UserHistory.tsx:17-32 | History holds exactly the per-raffle entries in which the user has numbers, at most one per raffle, ordered by start date, newest first. |
| UserHistory.LoadHistory | src/components/History/UserHistory.tsx:13-35 | The loader, which sorts an array in place, returns exactly `History`. |
| UserHistory.HistoryEntryNumbers | src/components/History/UserHistory.tsx:17-30 | Each history entry's raffle is stored and its numbers are non-empty: exactly the user's numbers of that raffle. `isWinner` holds when one of them is in `numeros_premiados`. |
| UserHistory.EntryHasNumbersIff | src/components/History/UserHistory.tsx:19-30 | A raffle's entry has numbers, and so survives the filter, exactly when one of the given numbers belongs to that raffle. |
| UserHistory.HistoryHasRaffleIff | src/components/History/UserHistory.tsx:17-30 | A raffle's entry is in the history exactly when the user owns a number in it. |
| UserHistory.ExtractVideoUrl | src/components/History/UserHistory.tsx:40-43 | The result is empty exactly when there is no `src="..."` with a non-empty quoted value. It never contains a quote. |
| UserHistory.ExtractFromMarkup | src/components/History/UserHistory.tsx:40-43 | In markup whose first `src="` is followed by an address and a quote, the address is extracted. |
| UserHistory.ExtractConvertRoundTrip | src/components/History/UserHistory.tsx:40-43 | For any URL whose embed form has no quote, extracting from `convertToIframe(url)` yields the embed URL plus `?controls=0`. |
| UserNumbers.FilteredNumbers | src/components/Numbers/UserNumbers.tsx:31-33 | `'all'` shows every number. Any other selection shows exactly the numbers of that raffle. |
| UserNumbers.FilteredNumbersIdempotent | src/components/Numbers/UserNumbers.tsx:31-33 | Filtering twice by the same selection is filtering once. |
| UserNumbers.ShownNumbers | src/components/Numbers/UserNumbers.tsx:20-33 | With a raffle selected, exactly the logged-in user's numbers of that raffle are shown. |
| UserNumbers.FindRaffle | src/components/Numbers/UserNumbers.tsx:39 | The lookup returns a stored raffle with that id, and nothing exactly when no raffle has it. |
| UserNumbers.FindRaffleFindsIt | src/components/Numbers/UserNumbers.tsx:39 | With unique ids, looking up a stored raffle's id finds that raffle. |
| UserNumbers.GetStatusBadge | src/components/Numbers/UserNumbers.tsx:38-47 | "Desconhecido" exactly for an unknown raffle. "Em andamento" comes from an open raffle with that id, and "Finalizado" from a closed one. |
| UserNumbers.BadgeOfStoredRaffle | src/components/Numbers/UserNumbers.tsx:38-47 | With unique ids, a stored raffle's badge is "Em andamento" when it is open and "Finalizado" otherwise. |
| UserNumbers.BadgeTextsDiffer | src/components/Numbers/UserNumbers.tsx:40-45 | The three badges have distinct texts. |
| UserNumbers.WinningNumberIff | src/components/Numbers/UserNumbers.tsx:49-52 | With unique ids, a number wins in a stored raffle exactly when that raffle has winning numbers and they include it. |
| UserNumbers.UnknownRaffleNeverWins | src/components/Numbers/UserNumbers.tsx:49-52 | No number wins in a raffle that is not stored. |
| UserNumbers.HistoryWinnerAgrees | src/components/Numbers/UserNumbers.tsx:49-52 | The history's winner flag agrees with the numbers screen's per-number winning check. |
| UserNumbers.WinnerTestsAgree | src/components/History/UserHistory.tsx:21-23 | For numbers of one stored raffle, with unique raffle ids, the history's `some(...)` winner test holds exactly when one of the numbers passes the numbers screen's winning check. |
| UserNumbers.PendingVouchers | src/components/Numbers/UserNumbers.tsx:21-36 | The pending count is at most the user's voucher count. It is 0 exactly when the user has no pending voucher. |
| PlayerSearch.GetUserStats | src/components/Admin/PlayerSearch.tsx:94-109 | The counts are the user's vouchers and numbers, the totals are the user's deposited and approved sums, and with non-negative amounts the approved total is between 0 and the deposited total. |
| PlayerSearch.ApprovedAtMostDeposited | src/components/Admin/PlayerSearch.tsx:98-101 | With non-negative amounts, the approved total of a user lies between 0 and the deposited total. |
| PlayerSearch.NumberHit | src/components/Admin/PlayerSearch.tsx:49-60 | A number result carries the record and, if found, a listed owner with that id. |
| PlayerSearch.UserHit | src/components/Admin/PlayerSearch.tsx:77-86 | A user result carries the user and exactly that user's numbers. |
| PlayerSearch.PerformSearch | src/components/Admin/PlayerSearch.tsx:23-92 | A blank term gives no results. Number mode gives only number results and the other modes only user results. No admin ever appears. |
| PlayerSearch.NumbersMatching | src/components/Admin/PlayerSearch.tsx:45-47 | A number is kept exactly when it is stored and its text includes the term. |
| PlayerSearch.UsersMatching | src/components/Admin/PlayerSearch.tsx:64-75 | A user is kept exactly when it is listed and passes the mode's test. |
| PlayerSearch.NumberResults | src/components/Admin/PlayerSearch.tsx:49-61 | One number row per matching number, in order, each owner found among the given users. |
| PlayerSearch.UserResults | src/components/Admin/PlayerSearch.tsx:77-87 | One user row per matching user, in order. |
| PlayerSearch.NumberResultsHits | src/components/Admin/PlayerSearch.tsx:43-61 | A number appears in the rows exactly when it is stored and includes the term. |
| PlayerSearch.UserResultsHits | src/components/Admin/PlayerSearch.tsx:64-87 | A user appears in the rows exactly when it is listed and passes the mode's test. |
| PlayerSearch.NumberSearchHits | src/components/Admin/PlayerSearch.tsx:43-61 | In number mode there is one result for each record whose number contains the lower-cased, trimmed term, and no other. |
| PlayerSearch.UserSearchHits | src/components/Admin/PlayerSearch.tsx:64-87 | In the user modes the results are exactly the non-admin users matched by the chosen mode. |
| PlayerSearch.CpfTermWithoutDigitsMatchesAll | src/components/Admin/PlayerSearch.tsx:70-71 | CPF mode compares digits only, so a term without digits matches every user. |
| PlayerSearch.SearchIgnoresCase | src/components/Admin/PlayerSearch.tsx:39 | Two terms that agree after lower-casing give the same results. |
| UserManagement.FilteredUsers | src/components/Admin/UserManagement.tsx:19-34 | The list holds exactly the non-admin users whose name or e-mail contains the term case-insensitively, or whose raw CPF contains the raw term. |
| UserManagement.EmptyTermKeepsAll | src/components/Admin/UserManagement.tsx:30-34 | An empty term keeps every non-admin user, in order. |
| UserManagement.NameSearchIgnoresCase | src/components/Admin/UserManagement.tsx:31-32 | Terms that agree after lower-casing match the same users when the CPF takes no part. |
| UserManagement.GetUserStats | src/components/Admin/UserManagement.tsx:36-53 | The counts and sums are the user's. The pending count is at most the voucher count. |
| UserManagement.ApprovedAtMostDeposited | src/components/Admin/UserManagement.tsx:40-43 | With non-negative amounts, the approved total lies between 0 and the deposited total. |
| UserManagement.GetUserDetails | src/components/Admin/UserManagement.tsx:55-66 | The details hold exactly the user's vouchers (the same multiset), newest `data_envio` first, and exactly the user's numbers. |
| AdminDashboard.Stats | src/components/Admin/AdminDashboard.tsx:34-53 | Users are the non-admins. The three status counts add up to all vouchers. Active raffles are the open ones, with none exactly when there is no current raffle. Revenue is at most the deposits for non-negative amounts. |
| AdminDashboard.RevenueAtMostDeposited | src/components/Admin/AdminDashboard.tsx:40-43 | With non-negative amounts, revenue (approved only) lies between 0 and the total deposited. |
| AdminDashboard.Recent | src/components/Admin/AdminDashboard.tsx:60-62 | At most 5 stored vouchers (exactly 5 when there are that many), newest first. |
| AdminDashboard.RecentAreNewest | src/components/Admin/AdminDashboard.tsx:60-62 | A voucher left out of recent activity is no newer than any shown one, and then exactly 5 are shown. |
| AdminDashboard.UserTotals | src/components/Admin/AdminDashboard.tsx:66-73 | With non-negative amounts, a user's approved total lies between 0 and the deposited total. |
| AdminDashboard.Candidates | src/components/Admin/AdminDashboard.tsx:66-74 | The candidates are exactly the non-admin users' totals with a positive deposit. |
| AdminDashboard.TopUsers | src/components/Admin/AdminDashboard.tsx:66-76 | At most 5 candidates, sorted by deposited total, largest first. |
| AdminDashboard.TopUsersAreTop | src/components/Admin/AdminDashboard.tsx:66-76 | A candidate left out of the top list deposited no more than any listed user, and then 5 are listed. |
| AdminDashboard.LoadStats | src/components/Admin/AdminDashboard.tsx:29-83 | The loader returns the aggregates, the first open raffle and the recent activity. It ranks the top users over the vouchers after its in-place newest-first sort, as the source does. |
| UserDashboard.Stats | src/components/Dashboard/UserDashboard.tsx:29-41 | Only the user's vouchers and numbers are counted. Pending is at most the voucher count, and `valorTotal` sums the user's approved amounts. |
| UserDashboard.ValorTotalCountsApprovedOnly | src/components/Dashboard/UserDashboard.tsx:32-34 | Adding another user's voucher, or one that is not approved, leaves `valorTotal` unchanged. |
| UserDashboard.ValorTotalBounds | src/components/Dashboard/UserDashboard.tsx:32-34 | With non-negative amounts, `valorTotal` lies between 0 and the user's total deposits. |
| UserDashboard.NoSrcGivesEmpty | src/components/Dashboard/UserDashboard.tsx:52-55 | Markup without a `src="` attribute yields the empty URL. |

## Left out

- Browser plumbing is not modelled: `localStorage` JSON parsing, `FileReader`, `setInterval` polling, `setTimeout` (including the 2-second validation delay), `alert`/`confirm` and React state. A component's loaded list is taken to be the stored one (no stale state), and `confirm` is a boolean parameter.
- Randomness and clocks are parameters, and no fairness or distribution claims are made. `Math.random` is an oracle; the `0.5 - Math.random()` comparator shuffle (not uniform) is an arbitrary index permutation. `Date.now()` ids and timestamps are inputs.
- `RaffleManagement.ProcessRaffleResult` takes the shuffle as an index permutation, so it models any order the shuffle can produce, not the browser's sort algorithm.
- `AuthContext` login and registration are network calls and are not part of this model. `LoginForm.HandleSubmit` and `RegisterForm.HandleSubmit` return the request they would send; the `!success` branches are unreachable because those calls always resolve to an object.
- `formatCurrency` and `formatDate` (thin wrappers over `Intl` and `Date`), `hashPassword`/`verifyPassword` (a `btoa` wrapper), and `generateMonthlyData` (fake chart data) are not modelled.
- `SystemSettings.tsx` is not part of this model. Its effect, a stored 0 meaning "use the default", is modelled where the configuration is read.
- Rendering and routing (`App.tsx`, `Header.tsx`, `Navigation.tsx`, `DashboardCard.tsx`) are not modelled. The admin `'coupons'` menu item has no page in `App.tsx`, so coupon administration is modelled as a component only.
- Amounts are exact `real`s, not IEEE doubles. Sums are exact, and the validator's 80% misread is exact too, so floating-point rounding is not modelled anywhere. The validator takes its random draw as an input, so the 90/10 split between approval and misread is not modelled.
- `Text.ParseFloat` skips leading white space and reads an optional sign, digits and an optional fraction. Exponents and `Infinity` are not recognised: the model reads `1e3` as 1 and `Infinity` as NaN.
- `VoucherUpload.HandleSubmit` requires the amount string to be empty or parsable. The number input only submits such strings.
- `Raffle.TicketCountMonotone` requires a positive block value and numbers per block. The settings form can store negative values, which reverse monotonicity.
- `Text.ToLower` and `Text.ToUpper` change ASCII and Latin-1 letters only (plus `ÿ`, its capital U+0178 and the micro sign). `Text.ToUpper` leaves `ß` (U+00DF) unchanged, where JavaScript writes `SS`; this reaches the coupon codes of `CouponManagement.NewCoupon`, because the model keeps one character per character. String lengths count characters, not UTF-16 code units (this matters for the 6-character password rule only with astral characters).
- Dates compared by the sorts and by `isExpired` are integer timestamps. Invalid dates (NaN comparisons) are not modelled.
- `NumeroRifa.id`, `usuario_nome` and the voucher image are not modelled; no rule reads them.
- `user?.id` is a given user id; the components' behaviour before login is not modelled.
- `CouponManagement.NewCoupon` takes the value as an integer, as the form's number field yields it.
- Coupon redemption, prize tiers, per-raffle number ranges and collision checks do not exist in these files and are not modelled.
