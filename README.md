# Meta Bank backend — a Dafny model

Meta Bank is a demonstration banking backend written for Node.js. It has
two independent halves:

* an Express/Mongoose API (`backend/`) with users, loans, transfers,
  tickets, KYC (identity document) review, e-mail verification and an
  admin-only "fake transfer" that moves money between accounts;
* a small session-based bank (`server.js`) that keeps its users in a JSON
  file, each with a checking and a savings balance, four secret answers and
  a transaction list, and offers wire transfers and mobile deposits.

This project models the logic of those handlers in Dafny and proves what
they guarantee: which checks come in which order, what state each
operation leaves behind, and how the generated identifiers and file names
are built.

How it is modelled:

* One module per source file. `Common` holds the shared pieces: `Option`,
  JavaScript truthiness, ASCII lower-casing, first-match search and an HTTP
  `Response`. `Decimal` holds decimal rendering and parsing of numbers.
* A stored collection is a `seq` field of a small class
  (`Models.UserCollection`, `Ledger.TransactionLog`, `SessionBank.UserFile`, …).
  `findOne`/`findById` pick the first match in storage order.
* Each handler that changes state is a method that `modifies` those
  collections. Its `ensures` ties the reply and the new state to a pure
  step function of the old state. The lemmas about those step functions
  state what the source promises.
* The `pre('save')` hooks are methods of document classes that assign the
  reference field in place.
* Time, randomness, `jsonwebtoken`, `bcrypt` and `crypto.randomBytes` are
  parameters or function-typed oracles:
  * the clock is a millisecond `nat`;
  * `Math.random()` is a `real` in [0, 1);
  * a JWT check is a `JwtAnswer`;
  * password hashing and comparison are functions.
* Amounts are integers. `parseFloat` is `Parsed`, which is `NaN` or a number.

The code has no per-account locking, no scheduled-transfer completion and
no availableBalance maintenance, although the system's design description
asks for per-account serialisation of debits. The model follows the code.

## Model

| member | source | states |
|---|---|---|
| Utils.RoutingNumber | backend/utils.js:5 | the routing number is never empty; a non-empty environment value wins, otherwise it is '231386894' |
| Utils.RandomValueIs64Bit | backend/utils.js:72 | eight random bytes read as one hexadecimal number give a value below 2^64 |
| Utils.AccountNumberValue | backend/utils.js:72-73 | the account number is (r mod 900000000000) + 100000000000 for the random value r, so it lies in [100000000000, 999999999999] |
| Utils.GenerateAccountNumber | backend/utils.js:71-75 | the result is the prefix followed by exactly 12 decimal digits that parse back to that account number |
| Utils.UnprefixedAccountNumber | backend/utils.js:71-75 | with the default empty prefix the number is a 12-character digit string not starting with '0' |
| Utils.SeedDisplayBalance | backend/utils.js:80-87 | the display balance is one of 0, 2760, 165000, 3240000, and it is non-zero only for a non-empty type |
| Utils.SeedDisplayBalanceIgnoresCase | backend/utils.js:81 | the balance depends only on the lower-cased type |
| Utils.SeedDisplayBalanceTable | backend/utils.js:81-85 | 'Business' gives 3240000, 'checking' 165000, 'savings' 2760, and an empty or missing type gives 0 |
| Models.ParseRole | backend/models.js:17 | exactly 'user', 'admin' and 'support' are accepted, each as the role it names |
| Models.ParseKycStatus | backend/models.js:18 | exactly 'pending', 'approved', 'verified' and 'rejected' are accepted |
| Models.ParseLoanStatus | backend/models.js:63 | exactly 'pending', 'approved' and 'rejected' are accepted |
| Models.ParseTransferStatus | backend/models.js:79 | exactly 'pending' and 'completed' are accepted |
| Models.DefaultUser | backend/models.js:16-30 | a new user has role user, KYC pending, is unverified, has a checking account that is inactive, balances 0, no identity images and no verification token |
| Models.RandomSuffix | backend/models.js:88 | the random suffix lies in 0..999 |
| Models.ClockIdRoundTrip | backend/models.js:89 | a generated reference reads back as prefix, floor(ms/1000) and the suffix |
| Models.ClockIdInjective | backend/models.js:89 | references of different seconds or suffixes differ |
| Models.AssignIfAbsent | backend/models.js:87-89 | a non-empty reference is kept; otherwise the generated one is used |
| Models.AssignIfAbsentIdempotent | backend/models.js:86-92 | running the hook again keeps what the first run assigned |
| Models.TransferDocument.constructor | backend/models.js:79 | a new transfer is pending |
| Models.TransferDocument.PreSave | backend/models.js:86-92 | the transfer id becomes 'TR-<seconds>-<suffix>' only when it was absent or empty, and is kept otherwise |
| Models.TicketDocument.constructor | backend/models.js:100 | a new ticket is open |
| Models.TicketDocument.PreSave | backend/models.js:107-113 | the ticket id becomes 'T-<seconds>-<suffix>' only when it was absent or empty |
| Models.SaveTwice | backend/models.js:86-92 | saving a transfer twice leaves the id the first save assigned; only the id field may change, and userId, toAccount, amount and status are kept |
| TicketModel.TicketRefRoundTrip | backend/models/Ticket.js:36 | a ticket reference is 'T-' followed by the millisecond timestamp, which reads back |
| TicketModel.TicketRefDiffersFromClockId | backend/models/Ticket.js:36 | a 'T-<ms>' reference never equals a 'T-<seconds>-<suffix>' reference |
| TicketModel.Ticket.constructor | backend/models/Ticket.js:18-22 | a new ticket is open |
| TicketModel.Ticket.PreSave | backend/models/Ticket.js:34-39 | the ticket id is assigned only when not set, and a set id is kept |
| Ledger.FakeTransferHandler | backend/auth.js:118-167 | the handler's reply and the new users and transaction log are those of the fake-transfer step |
| Ledger.FakeTransferChecks | backend/auth.js:122-137 | a missing or falsy field (so also an amount of 0) gives 400, an unknown account 404; the transfer happens exactly when both accounts exist, the source is an admin and its balance covers the amount |
| Ledger.OnlyAdminMayTransfer | backend/auth.js:132-134 | a source account that is not an admin gives 403 'Only admin can transfer' |
| Ledger.RefusalChangesNothing | backend/auth.js:122-137 | every refusal leaves all balances and the log unchanged |
| Ledger.TransferMovesExactlyAmount | backend/auth.js:140-162 | for two distinct accounts: debit and credit by exactly the amount; no other account and no availableBalance changes; exactly one 'completed' transaction (from name, to name, amount) is appended; the reply holds the new balances |
| Ledger.TransferConservesTotal | backend/auth.js:140-144 | a transfer between distinct accounts keeps the sum of all balances |
| Ledger.WholeBalanceLeavesZero | backend/auth.js:135-141 | moving exactly the whole balance is allowed and leaves the source at 0 |
| Ledger.SelfTransferKeepsTheCredit | backend/auth.js:126-144 | when both e-mails name one account, the later save of the credit wins: that account and the total grow by the amount |
| Ledger.RandomAccountNumber | backend/auth.js:98 | the random account number is 1 to 16 decimal digits |
| Ledger.NewAccount | backend/auth.js:93-103 | a registered account has balance and availableBalance 0, role user, is not seeded, and takes the given type or the default checking |
| Ledger.RegisterHandler | backend/auth.js:79-112 | the handler's reply and the new users are those of the register step |
| Ledger.RegisterKeepsEmailsUnique | backend/auth.js:84-103 | an existing e-mail is refused and nothing is stored; otherwise exactly one account with balance 0 is appended, and unique e-mails stay unique |
| Ledger.SeededSummaries | backend/auth.js:187-200 | the seeded-account listing is no longer than the users |
| Ledger.SeededSummariesExact | backend/auth.js:189-199 | the listing holds exactly the summaries of the seeded accounts |
| Ledger.Login | backend/auth.js:12-68 | a login succeeds exactly when the first user with that e-mail exists and the password matches its hash; only an admin receives the admin answer |
| Ledger.LoginReplies | backend/auth.js:17-67 | an unknown e-mail gets 404 'User not found'; for the first account with the e-mail a wrong password gets 401 'Invalid credentials', an admin gets its own summary with the summaries of all seeded accounts, and anyone else gets only its own summary |
| Ledger.FindByEmailFirst | backend/auth.js:17 | the lookup by e-mail returns the first stored account holding that e-mail |
| SessionBank.RegisterHandler | server.js:43-76 | the handler's outcome and new user file are those of the register step |
| SessionBank.RegisterAppendsOneUser | server.js:53-73 | a taken username is refused with the file unchanged, a missing answer crashes with the file unchanged; otherwise one user with the submitted username and password, checking 400000, savings 500000, no transactions and the four answers lower-cased is appended after the stored ones; unique usernames stay unique |
| SessionBank.LoginSucceedsIff | server.js:87-93 | login succeeds exactly when the first user with that username and password has every stored answer equal to the lower-cased supplied answer at the same position |
| SessionBank.RegisteredUserCanLogIn | server.js:43-97 | a freshly registered user logs in with the same answers in any letter case |
| SessionBank.ShowDashboard | server.js:100-117 | the dashboard shows for a logged-in stored user their balances, total = checking + savings and their transactions; otherwise it redirects |
| SessionBank.WireHandler | server.js:120-149 | the handler's outcome and new user file are those of the wire step |
| SessionBank.WrongCodeWins | server.js:126-132 | a confirmation code other than '123456' is refused whatever the amount |
| SessionBank.WireEffect | server.js:134-147 | a wire goes through exactly when 0 < amount <= checking; then checking drops by the amount and stays >= 0, savings are kept, one wire entry is appended last, other users are unchanged; refusals change nothing |
| SessionBank.DepositHandler | server.js:152-173 | the handler's outcome and new user file are those of the deposit step |
| SessionBank.DepositEffect | server.js:158-171 | a deposit goes through exactly when the amount is a positive number; then checking grows by it and one deposit entry is appended; refusals change nothing |
| SessionBank.WireAndDepositMoveTotal | server.js:139-163 | a wire lowers the bank's total checking by exactly the amount and a deposit raises it by exactly the amount |
| SessionBank.Tag | server.js:201-204 | each entry is tagged with the username, in order |
| SessionBank.AllTransactionsLength | server.js:200-205 | the admin list is as long as all users' transaction lists together |
| SessionBank.AllTransactionsAppend | server.js:200-205 | listing two groups of users lists the first group's entries, then the second's |
| SessionBank.AllTransactionsMembership | server.js:200-205 | an entry is listed under a name exactly when a user of that name holds it |
| SessionBank.Admin | server.js:191-208 | the admin dashboard is shown exactly for admin/admin123; it holds the stored users and the tagged listing of all their transactions, one entry per stored transaction |
| Controllers.RegisterHandler | backend/controllers.js:26-63 | the handler's reply and the new users are those of the register step |
| Controllers.RegisterChecks | backend/controllers.js:28-35 | a missing field gives 400 before a password mismatch, which comes before a 409 clash on e-mail or username; registration passes exactly when none applies; refusals store nothing |
| Controllers.RegisterNewAccount | backend/controllers.js:37-52 | a form that passes every check is answered 201; the new account takes fullName, e-mail, phone, username, dob and ssn from the form, has balances 0, is inactive and unverified with KYC pending, is a checking account at 'Meta Bank' with the environment's routing number, a 12-digit account number and the hashed password, and is appended |
| Controllers.RegisterKeepsIdentitiesUnique | backend/controllers.js:34-52 | unique e-mails and usernames stay unique |
| Controllers.LoginChecks | backend/controllers.js:67-74 | input without a password, or without both e-mail and username, gives 400; a successful login returns the first user matching username or e-mail whose hash accepts the password |
| Controllers.VerifyUserHandler | backend/controllers.js:84-97 | the handler's reply and the new users are those of the verify step |
| Controllers.VerifyUserSetsOnlyTheFlag | backend/controllers.js:86-93 | verification succeeds exactly for a token that decodes to a stored id; it sets isVerified and changes nothing else; failures change nothing |
| Controllers.UploadKycHandler | backend/controllers.js:113-119 | the handler's reply and the new users are those of the upload step |
| Controllers.UploadKycMarksPending | backend/controllers.js:113-119 | a stored requester's KYC becomes pending and nothing else changes; an unknown one gives 404 |
| Controllers.ApproveKycStub | backend/controllers.js:127 | approval answers 200 'KYC approved' and touches no collection |
| Controllers.RejectKycStub | backend/controllers.js:128 | rejection answers 200 'KYC rejected' and touches no collection |
| Controllers.CompleteTransferStub | backend/controllers.js:152 | completing a transfer answers 200 and changes no state |
| Controllers.ApplyLoanHandler | backend/controllers.js:134-137 | the handler's result and the new loans are those of the loan step |
| Controllers.MakeTransferHandler | backend/controllers.js:144-147 | the handler's result and the new transfers are those of the transfer step |
| Controllers.RequestsOnlyAppendPending | backend/controllers.js:134-147 | a loan or transfer request appends at most one pending record owned by the requester with the given amount and keeps every earlier record |
| UserController.Dashboard | backend/controllers/userController.js:27-49 | an unknown user gives 404; otherwise the dashboard is the projection of that user's document |
| UserController.DashboardDefaults | backend/controllers/userController.js:40-48 | accountStatus is 'Active' exactly when verified; balances fall back only when absent (a stored 0 stays 0); text fields fall back exactly when empty or absent; no shown text field is empty |
| UserController.ApplyLoanHandler | backend/controllers/userController.js:64-82 | the handler's reply and the new loans are those of the loan step |
| UserController.ApplyLoanChecks | backend/controllers/userController.js:66-74 | a missing or zero amount or an empty purpose gives 400 and nothing is stored; a stored loan belongs to the requester whatever the body says and is pending unless the body names a valid status |
| UserController.MakeTransferHandler | backend/controllers/userController.js:85-103 | the handler's reply and the new transfers are those of the transfer step |
| UserController.MakeTransferChecks | backend/controllers/userController.js:87-95 | a missing or zero amount or an empty recipient gives 400; a stored transfer belongs to the requester and records the body's toAccount, not the checked recipientAccount |
| UserController.VerifyAccountHandler | backend/controllers/userController.js:138-168 | the handler's reply and the new users are those of the verify step |
| UserController.VerifyAccountSucceedsIff | backend/controllers/userController.js:140-157 | verification succeeds exactly when a user holds the token with expiry strictly after now; that user becomes verified with token and expiry cleared, and nothing else changes |
| UserController.ExpiredTokenRefused | backend/controllers/userController.js:145-152 | a token whose expiry is now or earlier is refused |
| UserController.TokenIsSingleUse | backend/controllers/userController.js:145-157 | when no two users share a token, a token that verified once is refused at any later time |
| VerifyController.VerifyUserHandler | backend/controllers/verifyController.js:4-36 | the handler's reply and the new users are those of the verify step |
| VerifyController.VerifyUserRefusals | backend/controllers/verifyController.js:8-22 | a missing, empty or non-string token gives 400 before decoding; a failed verification gives 403, an unknown id 404; none of them writes |
| VerifyController.VerifyUserEffect | backend/controllers/verifyController.js:19-29 | a known user ends verified, nothing else changes, and an already verified one is reported as such |
| VerifyController.VerifyUserIdempotent | backend/controllers/verifyController.js:24-29 | verifying twice leaves the users as verifying once, and the second answer is 'User already verified' |
| KycController.UploadKycHandler | backend/controllers/kycController.js:6-30 | the handler's reply and the new users are those of the upload step |
| KycController.UploadKycEffect | backend/controllers/kycController.js:8-22 | an upload goes through exactly for a stored user with both files; it stores both file names and sets KYC pending from any status; refusals change nothing |
| KycController.PendingKycExact | backend/controllers/kycController.js:35 | every listed entry is a stored pending user with its password cleared, and every stored pending user is listed |
| KycController.PendingKycAppend | backend/controllers/kycController.js:35 | the list keeps storage order: the pending users of a first group come before those of a second |
| KycController.ApproveKycHandler | backend/controllers/kycController.js:44-59 | approval is the set-status step with 'approved' |
| KycController.RejectKycHandler | backend/controllers/kycController.js:62-77 | rejection is the set-status step with 'rejected' |
| KycController.SetKycStatusEffect | backend/controllers/kycController.js:46-53 | a stored user's status is set from any prior status and nothing else changes; an unknown id gives 404 and changes nothing |
| KycController.SetKycStatusIdempotent | backend/controllers/kycController.js:46-50 | approving (or rejecting) twice gives the same result as once |
| KycController.ApprovalLeavesPendingList | backend/controllers/kycController.js:46-50 | an approved user no longer appears in the pending list |
| Middleware.BearerTokenExtraction | backend/middleware.js:5-6 | the token is the header after 'Bearer ' exactly when the header starts with it, and empty otherwise; a missing header counts as empty |
| Middleware.VerifyTokenOutcomes | backend/middleware.js:4-19 | an empty token (also a bare 'Bearer ') gives 401; a failed verification gives 403, 'Token expired' exactly for an expired token; an accepted request carries the id and the lower-cased role, 'user' by default |
| Middleware.RoleNormalisationIgnoresCase | backend/middleware.js:11 | 'Admin', 'ADMIN' and 'admin' all become 'admin'; an absent or empty role becomes 'user' |
| Middleware.IsAdminDecision | backend/middleware.js:21-30 | an 'admin' role in the token admits without reading the store; otherwise admission happens exactly when the stored user with that id is an admin, and refusal is 403 |
| AuthMiddleware.Split | backend/middleware/authMiddleware.js:12 | splitting yields at least one field, and no field contains a space |
| AuthMiddleware.SplitJoin | backend/middleware/authMiddleware.js:12 | joining the fields with spaces gives back the header |
| AuthMiddleware.FirstField | backend/middleware/authMiddleware.js:12 | the first field is the text up to the first space |
| AuthMiddleware.SecondFieldAfterBearer | backend/middleware/authMiddleware.js:12 | after 'Bearer ' the token is the next space-free field; anything after another space is ignored |
| AuthMiddleware.BearerHeaderHasSecondField | backend/middleware/authMiddleware.js:8-12 | a header passing the prefix check always has a second field |
| AuthMiddleware.VerifyTokenOutcomes | backend/middleware/authMiddleware.js:5-22 | a missing header, or one without the 'Bearer ' prefix, gives 401; otherwise the second field is verified: 403 on failure, the whole decoded payload on success |
| AuthMiddleware.IsAdminExactRole | backend/middleware/authMiddleware.js:25-43 | admission happens exactly for a token role spelled 'Admin'; a stored role never matches; 'admin' is refused with 403 |
| Upload.Collapse | backend/routes/authRoutes.js:24 | the collapsed name contains no whitespace |
| Upload.CollapseKeepsPlainNames | backend/routes/authRoutes.js:24 | a name without whitespace is unchanged |
| Upload.CollapseRun | backend/routes/authRoutes.js:24 | each maximal whitespace run becomes exactly one '_' |
| Upload.CollapseKeepsVisible | backend/routes/authRoutes.js:24 | every character that is neither whitespace nor '_' is kept, in order |
| Upload.AuthRoutesFileNameProperties | backend/routes/authRoutes.js:23-26 | the stored name is time-'-'-safe name, where the safe name has no whitespace, keeps the other characters in order and equals the original when that has no whitespace |
| Upload.StoredNameSplits | backend/routes/authRoutes.js:25 | the text before the first '-' is the decimal upload time, which reads back, and the rest is the safe name |
| Upload.Sanitize | backend/routes.js:14 | the sanitised name holds only ASCII letters, digits, '.', '_' and '-' |
| Upload.SanitizeProperties | backend/routes.js:13-16 | the sanitised name has only permitted characters and no whitespace, keeps the permitted characters of the original (other than '_') in order, and sanitising it again changes nothing |
| Upload.AcceptsFile | backend/routes.js:20-24 | a file is accepted exactly when its MIME type is present and non-empty |

## Left out

- Mongoose persistence. Collections are in-memory sequences. Queries return the first match in storage order. Failed reads and writes, the 500 answers they lead to, and malformed-id cast errors are not modelled; ids are natural numbers.
- Concurrency and atomicity. The two `save` calls of a fake transfer are separate writes, as the code has them. The model claims no atomicity, rollback or locking.
- Save-time schema validation: `required`, `min: 0`, `trim`, `lowercase` and unique indexes. Documents are stored as the handlers build them. Enum paths are Dafny enumerations, so stored values are always among the schema's values. `Models.ValidLoan`, `Models.ValidTransfer` and `TicketModel.Ticket.HasRequiredFields` only state the constraints. Query values are not lower-cased the way the `lowercase` setters would.
- Ledger.Register: stores the document exactly as backend/auth.js builds it. That document never sets phone, username, dob, ssn or bankName, which the user schema requires, so save-time validation would refuse it; that refusal is not modelled.
- UserController, VerifyController and KycController read and write isVerified, the verification token, address and the balances as stored fields. backend/models/User.js declares none of these paths, and under Mongoose's strict mode they would read as undefined and be dropped on save. That effect is not modelled.
- JavaScript numbers are integers here. Fractional amounts are not modelled. Neither is a fake-transfer amount sent as a string, which `to.balance += amount` would concatenate. `parseFloat` of text is the `Parsed` input rather than a string function.
- `toLowerCase` covers ASCII letters only.
- Tokens and mail. `jwt.sign` tokens in replies, verification and admin-notification e-mails, and the mail transporter are not modelled.
- auth.js `/login` for an admin also returns the nine latest transactions and the scheduled ones (sorted queries). `Ledger.Login` returns only the admin and account summaries. The `/transactions` listing is not modelled.
- server.js I/O. JSON file loading and saving, sessions (the session user is a parameter), HTML pages, the date string (a parameter) and `listen` are left out. Errors the handlers throw, such as a missing secret answer or a session user no longer stored, become a `Crashed` outcome with the file unchanged.
- Read-only handlers with no logic are not part of this model: `profile`, `dashboard`, `getVerificationStatus`, `getLoans`, `getTransfers`, the statements/investments/accounts getters and the admin stubs of backend/controllers.js, and `getProfile`, `getLoans` and `getTransfers` of backend/controllers/userController.js.
- Controllers.ApplyLoanHandler and Controllers.MakeTransferHandler: a request without an amount fails validation in a handler without `catch`, so no answer is sent. The model returns `None` and stores nothing.
- AuthMiddleware.IsAdminExactRole: a stored role is one of the schema values 'user', 'admin' and 'support'. A role written without validators, such as by `findByIdAndUpdate` in backend/controllers/adminController.js:18 (not part of this model), could be any string, even 'Admin', and would then admit. The tokens the backend signs carry the stored role (backend/controllers.js:76), so none says 'Admin'.
- Middleware and AuthMiddleware: the 500 answers of `isAdmin` when the store fails are not modelled. The decoded JWT payload is reduced to its id and role.
- Multer. File size limits, destination directories and `mkdirSync` are not modelled. Only the file-name callbacks and the MIME-type filter are.
