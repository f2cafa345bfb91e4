# Loyalty programme: verified model

This project models the money and membership core of the loyalty programme, together with
the protocols beside it, and proves what the programme promises about them. Every operation
that changes rows in place is a method of a small `Desk` or mirror class, proved against a
function or relation on values; the long-running claims (over every interleaving, every
history, every offered snapshot) are lemmas about those values.

| area | modules |
|---|---|
| printed tree numbers, forest, repairs and joins | `TreeNumbers`, `Forest`, `Referrals`, `ReferralDesk`, `ReferralRuns`, `TreeCheck` |
| reward and refund arithmetic | `Calculation`, `Decimals` |
| ledger replay, capture, snapshots, mirrors | `Ledger`, `Schema`, `Capture`, `Ordering`, `Snapshots`, `Captures`, `CaptureGap`, `SnapshotLaws`, `Mirrors`, `MirrorDesk`, `MirrorRuns` |
| booking history import | `BookingHistory`, `ImportProtocol`, `LinkRaces`, `ImportLaws`, `ImportDesk` |
| shared invitation registry and its two senders | `InvitationRegistry`, `RegistryLaws`, `BookingInvitations`, `InvitationLaws`, `InvitationDesk` |
| phone ownership and one-use codes | `PhoneIdentity`, `PhoneAuth`, `PhoneLaws`, `PhoneDesk` |
| paying with points | `Checkout` |
| legacy redirects | `Redirects` |

`dafny verify dfyconfig.toml` checks everything.

## How to read the model

- Money is whole cents. Times are integers handed to each step, in any order.
- In the live tables a tree number is a `Place`; `TreeNumbers` shows that its zero-padded,
  dash-joined text is injective and that the prefix cut of `link_members` prints the moved
  place. A snapshot holds numbers as arbitrary texts, and `TreeCheck` joins the two.
- Keyed digests are functions or opaque values: equal inputs give equal digests. The
  snapshot seal is an arbitrary function. A stored code digest stands for its code.
- The `Laws` modules say when each operation goes through and what it leaves, in the fields of
  the rows alone, without the functions the operations are specified by.
- UUIDs and versions drawn by a step are fresh. Membership, eligibility, allowed accounts
  and receipts of earlier releases are inputs with arbitrary answers.
- Each locked section of the website is one step. A call to a provider made without a lock
  lies between two steps, so workers may overlap, die or come back late.
- Row keys are a table number, in alphabetical order of the table labels, and a number
  standing for the primary key; capture order compares the table and then the key's text.

## What the code does that its description does not say

- **One send permit.** In the registry alone, a report of `queue_failed` or `blocked` on a
  dispatched row whose state has no rank makes the row claimable again and leads to a
  second permit (`InvitationRegistry.HarmfulRecordAllowsSecondPermit`).
  `InvitationRegistry.RecordKeepsSafe` gives the exact condition. The two callers never meet
  it: the automation may not report these states, and the website's search for requests in
  flight keeps a queued request's row away from everyone else
  (`BookingInvitations.QueueFailureNeverMeetsADispatch`), which is why
  `BookingInvitations.OneSendOnly` holds for both senders together.
- **Outcome order.** The order of reports can decide the final state. It does not exactly
  when the row or some report has a rank, or both orders end with the same status
  (`InvitationRegistry.OrderMattersExactly`, with a failing pair in
  `InvitationRegistry.UnrankedOrderMatters`).
- **Ledger evidence.** The capture follows foreign keys and the approved reverse edges, not
  the payments, refunds and modifications named inside a posting's evidence, which the
  checker asks for. Sound tables whose capture is refused exist
  (`CaptureGap.CaptureCanBeRefused`). The capture of sound tables is accepted exactly when
  they lead from its seeds to every record named (`Captures.CaptureIsProper`), which they do
  when every posting names only records of its own stay (`Captures.OwnEvidenceIsProper`).
- **Frozen beneficiaries.** A repair, a join or a further settlement never changes the chain a
  settled booking follows. A settlement of the owner's past-stay offer does: it stores the
  empty chain over the one written down (`ReferralRuns.OfferOverwritesChain` is such a run,
  `ReferralRuns.SettledChainsAreFrozen` the exact statement).
- **Cents.** The test for two decimal places is made in arithmetic of 28 digits and a smallest
  exponent, so a decimal that is not a number of cents can be accepted: one longer than
  twenty-six digits (`Decimals.LongDecimalsAreRounded`), or one too small to leave anything
  (`Decimals.TinyDecimalsAreZero`). `Decimals.AcceptedIsExact` says exactly when.
- **Cloud mirror.** It never reorders what it is given, so a snapshot accepted by the local
  mirror is accepted there exactly when it was sealed in capture order
  (`MirrorRuns.CloudAcceptsWhatLocalDoes`).
- **Upsert.** It equals delete-and-insert exactly when no earlier row is missing
  (`Mirrors.UpsertRefinesReplace`); the comparison before the write is what ensures that.
- **Redemption** is the one way out of a hold while an inventory create may have succeeded.
  `Checkout.UnresolvedKeepsHold` says exactly which steps take it: a redemption of a live
  booking, and the conclusion of a confirmed create. The first can come before the create is
  answered (`Checkout.HoldCanBeSpentUnanswered`). Redemption does not clear the mark of the
  started confirmation; only a definite failure does.

## Model

| member | source | states |
|---|---|---|
| `TreeNumbers.PadInjective` | apps/loyalty/referrals.py:154 | two branch orders never print alike, although orders above 9999 print longer |
| `TreeNumbers.PadIsFourDigits` | apps/loyalty/referrals.py:154 | a branch order below ten thousand prints as exactly the four digits that read back as it |
| `TreeNumbers.ChildInjective` | apps/loyalty/referrals.py:154-164 | a printed child number determines both its parent number and its branch |
| `TreeNumbers.RootIsNoChild` | apps/loyalty/services.py:289 | a top-level number is never a child number |
| `TreeNumbers.TextInjective` | apps/loyalty/backup.py:380-413 | comparing printed tree numbers is comparing places in the tree |
| `TreeNumbers.TextOfRebase` | apps/loyalty/referrals.py:164 | cutting the old prefix off a printed number and writing the new one in front prints the moved place |
| `TreeNumbers.RebaseInjective` | apps/loyalty/referrals.py:157-164 | different places below the moved member stay different |
| `Forest.ClimbFindsChain` | apps/loyalty/referrals.py:56-68 | on a sound forest the climb ends without an error and lists exactly the inviters, nearest first |
| `Forest.ClosedSetCoversBranch` | apps/loyalty/referrals.py:132-138 | a set that holds the member and every invitee of its members holds the whole branch |
| `Forest.MovedRow` | apps/loyalty/referrals.py:153-172 | the moved member hangs under the inviter at the new branch and every other moved row keeps fitting its own moved inviter row |
| `Forest.MovedText` | apps/loyalty/referrals.py:154-164 | the number written for a moved member is the new path followed by the tail of its old number |
| `Forest.RelinkedSound` | apps/loyalty/backup.py:414-429 | after a move every current row again agrees with its inviter in root, depth and number |
| `Forest.RelinkedDistinct` | apps/loyalty/backup.py:412-413 | after a move no two current rows share a number |
| `Forest.MovedPlaceIsFresh` | apps/loyalty/referrals.py:71-83 | with a fresh branch, no row ever recorded has the number of a moved row |
| `Forest.MovedRowSupported` | apps/loyalty/backup.py:391-411 | each moved row has a matching parent among the recorded rows |
| `Forest.ChainOfOutsider` | apps/loyalty/referrals.py:56-68 | members outside the moved branch keep their chain |
| `Forest.ChainOfInsider` | apps/loyalty/referrals.py:56-68 | members of the branch get their old chain, then the new inviter, then the inviter's chain |
| `Forest.ChainLaw` | apps/loyalty/referrals.py:132-172 | both cases together for every member of the forest after the move |
| `Forest.NewcomerIsSound` | apps/loyalty/services.py:287-301 | adding one well-placed member keeps the forest sound |
| `Referrals.CheckedIsSound` | apps/loyalty/backup.py:384-429 | tables that pass the snapshot's tree checks hold a sound forest |
| `Referrals.GraphAfter` | apps/loyalty/referrals.py:19-38 | appended revisions override exactly the moved members' current rows |
| `Referrals.RepairKeepsChecks` | apps/loyalty/referrals.py:109-190 | from any state passing the tree checks, a repair leads to one passing them again, one-to-one accounts included |
| `Referrals.RepairNeverRecycles` | apps/loyalty/referrals.py:71-83 | a repair never gives a number that any original or revision ever recorded to another member |
| `Referrals.RepairIsDone` | apps/loyalty/referrals.py:132-190 | writing the frozen bookings and the planned rows is one complete repair |
| `Referrals.RepairTouchesBookings` | apps/loyalty/referrals.py:139-152 | after a repair a booking is settled, had no chain and has its owner in the branch, and now stores the owner's old chain, or it is exactly as it was; a booking not settled yet is never touched |
| `Referrals.AcceptedPairs` | apps/loyalty/referrals.py:86-106 | a pair is accepted exactly when both are joined and active, the member has no inviter, the inviter is eligible and outside the member's branch |
| `Referrals.JoinPlaceIsFresh` | apps/loyalty/services.py:287-301 | a newcomer's number was never recorded before |
| `Referrals.JoinKeepsChecks` | apps/loyalty/services.py:264-301 | joining keeps every tree check |
| `Referrals.JoinNeverRecycles` | apps/loyalty/services.py:264-301 | joining never reuses a number |
| `ReferralDesk.ChainIds` | apps/loyalty/referrals.py:56-68 | the loop ends on every table, reports a missing row or a circle, and on a sound forest returns the chain of inviters |
| `ReferralDesk.ValidatePair` | apps/loyalty/referrals.py:86-106 | refuses in the order of `validate_pair` and accepts exactly the acceptable pairs |
| `ReferralDesk.Affected` | apps/loyalty/referrals.py:132-138 | the growing set ends as exactly the member and its descendants |
| `ReferralDesk.ByDepth` | apps/loyalty/referrals.py:157 | lists the branch once, inviters before their invitees |
| `ReferralDesk.MoveRow` | apps/loyalty/referrals.py:157-167 | one written row is the moved row of that member |
| `ReferralDesk.Desk.CurrentGraph` | apps/loyalty/referrals.py:19-53 | the newest revision, else the original link, of every member; refused above the tree limit |
| `ReferralDesk.Desk.NextBranch` | apps/loyalty/referrals.py:71-83 | one above every branch order recorded under the inviter in either table, or 1 |
| `ReferralDesk.Desk.FreezeBookings` | apps/loyalty/referrals.py:139-152 | exactly the settled bookings of branch members without a stored chain get their present chain stored; upcoming stays, stored chains and bookings of others stay as they were |
| `ReferralDesk.Desk.BuildRows` | apps/loyalty/referrals.py:156-172 | one row per branch member in order, refused when this operation already wrote one of them |
| `ReferralDesk.Desk.PlanMove` | apps/loyalty/referrals.py:153-172 | the plan uses a fresh branch and the branch order by depth |
| `ReferralDesk.Desk.MoveBranch` | apps/loyalty/referrals.py:130-190 | performs a complete repair or changes nothing |
| `ReferralDesk.Desk.LinkMembers` | apps/loyalty/referrals.py:109-190 | each refusal leaves all tables alone, a repeated request returns its first row, and success, exactly for an acceptable pair within the tree limit, is one repair that keeps every check and touches only settled, chainless bookings of the branch |
| `ReferralDesk.Desk.Enroll` | apps/loyalty/services.py:205-301 | joining returns the existing active member, refuses an ineligible inviter, or adds one checked member with a never-used number |
| `ReferralRuns.EmptyIsValid` | apps/loyalty/referrals.py:45-53 | an empty programme satisfies the invariant |
| `ReferralRuns.StepKeepsInvariant` | apps/loyalty/referrals.py:109-190 | repairs, joins, settlements, past-stay offers and unrelated booking changes keep the checks and number uniqueness |
| `ReferralRuns.RunKeepsInvariant` | apps/loyalty/referrals.py:109-190 | so does every run of them |
| `ReferralRuns.NumbersNameOneMemberForever` | apps/loyalty/models.py:139-155 | over a run, two rows recorded at any two times with one number belong to one member |
| `ReferralRuns.BranchesHaveNoGaps` | apps/loyalty/referrals.py:71-83 | over a run the branch orders recorded under each inviter, and at the top, stay 1, 2, 3 and so on, with none skipped |
| `ReferralRuns.RepairFreezes` | apps/loyalty/referrals.py:139-152 | a repair leaves the effective chain of a settled booking as it was |
| `ReferralRuns.JoinFreezes` | apps/loyalty/services.py:264-301 | a newcomer changes nobody else's effective chain |
| `ReferralRuns.SettleFreezes` | apps/loyalty/services.py:519-530 | settling again keeps the chain written down at the first settlement |
| `ReferralRuns.FirstSettlementFollowsTree` | apps/loyalty/services.py:519-530 | over a run, a booking still unsettled and without a chain follows, at its first settlement, the tree of that moment, whatever repairs came before |
| `ReferralRuns.LinkedStayPaysInviter` | apps/loyalty/referrals.py:146 | a stay first settled right after its owner or somebody above was put under an inviter pays the old chain, then that inviter, then the inviter's chain |
| `ReferralRuns.SettledChainFollowsOffers` | apps/loyalty/services.py:519-630 | over a run a settled booking follows its chain until an offer settles it, and the empty chain from then on |
| `ReferralRuns.SettledChainsAreFrozen` | apps/loyalty/referrals.py:139-152 | over every run the effective beneficiary chain of a settled booking is unchanged if and only if it was empty or no past-stay offer settled the booking in between |
| `ReferralRuns.OfferOverwritesChain` | apps/loyalty/services.py:519-630 | a run of valid tables: member 2, invited by member 1, settles a stay with the chain of member 1, and the past-stay offer then leaves nobody |
| `ReferralRuns.EveryStateIsAccepted` | apps/loyalty/backup.py:380-429 | every state of every run of repairs, joins and settlements, printed into a snapshot, passes the tree checks |
| `TreeCheck.BuildHistories` | apps/loyalty/backup.py:382-390 | collects every member's rows with the row in force last |
| `TreeCheck.Walk` | apps/loyalty/backup.py:414-429 | climbs comparing each row with the one above; a refusal proves a misaligned row |
| `TreeCheck.CountingFindsDuplicates` | apps/loyalty/backup.py:380-381 | comparing counts detects exactly the repeated number texts |
| `TreeCheck.CheckRows` | apps/loyalty/backup.py:391-411 | accepts exactly when every recorded row has a matching parent row, comparing number texts |
| `TreeCheck.CheckTree` | apps/loyalty/backup.py:380-429 | on any number texts, the checker accepts exactly the tables satisfying all tree demands |
| `TreeCheck.SupportedNumbersArePlaces` | apps/loyalty/backup.py:391-411 | whatever texts a snapshot holds, if every row is supported every number is the printed number of a place at the row's depth |
| `TreeCheck.PrintedChecks` | apps/loyalty/backup.py:380-429 | the checks on number texts accept the printed form of tables exactly when the checks on places accept the tables |
| `TreeCheck.CheckedTextIsPrinted` | apps/loyalty/backup.py:380-429 | whatever texts a snapshot holds, if they pass, they are the printed form of tables that pass the checks on places |
| `Calculation.CentsReadsAmounts` | apps/loyalty/calculation.py:8-17 | a decimal whose product loses no digit is read as c cents exactly when it is c hundredths and below the limit; anything else is refused |
| `Decimals.AcceptedIsExact` | apps/loyalty/calculation.py:15-17 | an accepted decimal is exactly the cents it is read as if and only if decimal arithmetic loses none of its digits, to the 28 it keeps or below its smallest exponent |
| `Decimals.ShortDecimalsLoseNothing` | apps/loyalty/calculation.py:15-17 | up to twenty-six digits, not below the smallest exponent, nothing is lost |
| `Decimals.AcceptedIsNear` | apps/loyalty/calculation.py:15-17 | an accepted decimal that loses digits is within half a millionth of a millionth of a cent of what it is read as |
| `Decimals.LongDecimalsAreRounded` | apps/loyalty/calculation.py:15-17 | a decimal with thirty-one places that is not a number of cents is accepted as 100 cents |
| `Decimals.UnderflowReadsZero` | apps/loyalty/calculation.py:15-17 | a decimal whose product lies below the smallest exponent is read as nothing but zero, and exactly when at most half a unit of that exponent remains |
| `Decimals.TinyDecimalsAreZero` | apps/loyalty/calculation.py:15-17 | the single digit with exponent -1000030 is not a number of cents and is accepted as none |
| `Calculation.AmountReadsBack` | apps/loyalty/calculation.py:8-21 | every amount of cents below the limit is written as these hundredths and reads back as these cents |
| `Calculation.EveryoneIsPaidOnce` | apps/loyalty/calculation.py:24-47 | owner and ancestors are each paid once in order of distance: exactly the floor of three and five percent, then at most one percent, each row with its kind, rate and fraction |
| `Calculation.PlanTotal` | apps/loyalty/calculation.py:24-47 | a stay pays out exactly three percent, five percent and the pool |
| `Calculation.OlderSharePoolExactly` | apps/loyalty/calculation.py:29-46 | the older inviters' shares add up to the pool, to the cent |
| `Calculation.SharesAreEven` | apps/loyalty/calculation.py:32-40 | each share is at most one percent and any two differ by at most one cent |
| `Calculation.OlderInvitersShare` | apps/loyalty/calculation.py:29-46 | the older inviters of a stay get together the most whole cents within one percent for each of at most seven and one percent a head, and nearer ones never less than farther ones, nor a cent more than one |
| `Calculation.SmallFamiliesGetOnePercent` | apps/loyalty/calculation.py:32-40 | with one to seven older inviters each gets exactly the floor of one percent |
| `Calculation.RewardsStayWithinFifteenPercent` | apps/loyalty/calculation.py:24-47 | all rewards of a booking total at most the floor of fifteen percent |
| `Calculation.PoolMonotone` | apps/loyalty/calculation.py:33 | the pool never shrinks when the base or the number of older inviters grows |
| `Calculation.RewardsMonotone` | apps/loyalty/calculation.py:24-47 | every beneficiary's reward is monotone in the base |
| `Calculation.RefundConserved` | apps/loyalty/calculation.py:50-55 | the split loses nothing, exceeds neither payment, returns both exactly on a full refund, and refuses only excess |
| `Calculation.RefundIsProportional` | apps/loyalty/calculation.py:54 | the cash of a split is the refund's share of the cash paid, rounded down, the rest is points, and without payments nothing is returned |
| `Calculation.RefundMonotone` | apps/loyalty/calculation.py:54 | refunding more never returns less cash or fewer points |
| `Calculation.DepartureRefund` | apps/loyalty/calculation.py:58-72 | sums the unused nights; refused exactly for a zoneless time, a repeated date or an unreadable value |
| `Calculation.LaterDepartureRefundsLess` | apps/loyalty/calculation.py:70-71 | leaving later never refunds more, and nothing exceeds the total of all nights |
| `Calculation.NightsEndAtEight` | apps/loyalty/calculation.py:62-71 | the night of a date is refunded until eight that evening and not afterwards, and nothing changes between one evening and the next |
| `Calculation.AllOrNothing` | apps/loyalty/calculation.py:58-72 | without an arrival, or before every night, all nights are refunded; after every night none is |
| `Ledger.Post` | apps/loyalty/backup.py:439-494 | one posting is accepted exactly when it follows from the postings before it |
| `Ledger.Validate` | apps/loyalty/backup.py:430-508 | accepts exactly the gap-free, uniquely named, balanced ledgers with paired transfers and reports their totals |
| `Ledger.ReplaysExactly` | apps/loyalty/backup.py:439-508 | a ledger is accepted exactly when every posting is numbered in order, new in operation, event and branch, its member's by account, membership and tree number, one-sided, with true balances that go below zero only where allowed and evidence that is there, and every transfer has its one mirrored partner |
| `Ledger.ProgramIsSumOfMembers` | apps/loyalty/backup.py:468-473 | the programme balance is the sum of all members' balances |
| `Ledger.RecordedBalancesAgree` | apps/loyalty/backup.py:470-473 | at every prefix of an accepted ledger the recorded balances are those sums |
| `Ledger.PairNetsToZero` | apps/loyalty/backup.py:495-503 | a paired transfer group nets to zero |
| `Ledger.ProgramSplits` | apps/loyalty/backup.py:468-508 | the programme balance splits into transfer groups and the other postings |
| `Ledger.TransfersCancel` | apps/loyalty/backup.py:479-508 | so the final total is the sum of the postings that are not transfers |
| `Ledger.OnlyCorrectionsOverdraw` | apps/loyalty/backup.py:474-479 | a member goes below zero only by a linked adjustment or a redemption |
| `Capture.Seed` | apps/loyalty/backup.py:182-195 | the seeds are the core tables, all guest events and the members' booking requests, or refused above the limit |
| `SnapshotLaws.SeedsExactly` | apps/loyalty/backup.py:182-195 | a capture starts with every member, link, posting and guest event, and with the booking requests of the members' accounts |
| `Capture.FollowKeys` | apps/loyalty/backup.py:199-210 | one pass over the foreign keys adds everything the chosen rows refer to and nothing that is not forced |
| `Capture.Pass` | apps/loyalty/backup.py:198-218 | a pass that adds nothing proves closure under foreign keys and approved reverse edges |
| `Capture.Close` | apps/loyalty/backup.py:197-218 | the loop ends in the least closed set holding its seeds, or the row limit is truly exceeded |
| `Capture.Choose` | apps/loyalty/backup.py:181-218 | a capture chooses exactly the least closed set holding the seeds, and refuses only when that set is over the limit |
| `Capture.CapturedSetIsComplete` | apps/loyalty/backup.py:338-354 | without dangling keys in the database every chosen key has a row and no reference is missing |
| `Snapshots.CapturedRowsAreComplete` | apps/loyalty/backup.py:338-354 | so the checker's search for missing related records passes on a captured set |
| `Captures.CoreIsCaptured` | apps/loyalty/backup.py:181-218 | members, links, revisions, postings and guest events are captured whole; revisions over the first approved reverse edge |
| `Captures.CaptureIsReach` | apps/loyalty/backup.py:181-218 | a capture holds exactly the rows reached from its seeds along foreign keys and approved reverse edges |
| `SnapshotLaws.RowsOfItAreCaptured` | apps/loyalty/backup.py:46-65 | each revision, profile, draft, stay, change, operation, refund, payment, request, delivery, receipt and finance row is captured with the row it belongs to |
| `SnapshotLaws.OnlyTheseAreCaptured` | apps/loyalty/backup.py:181-218 | nothing else is captured: any row beyond those a capture starts with is named by another captured row or belongs to one |
| `Captures.CaptureIsProper` | apps/loyalty/backup.py:181-236 | tables that pass every check give captured rows that pass every check, if and only if the tables lead from the seeds to every record named in ledger evidence |
| `Captures.RecordsOfStayAreReached` | apps/loyalty/backup.py:480-494 | a posting leads to the payments, refunds and modifications of its own stay |
| `Captures.OwnEvidenceIsProper` | apps/loyalty/site_adapter.py:248-258 | evidence written as a settlement writes it names only records of its own stay, and then the captured rows pass every check |
| `CaptureGap.CaptureCanBeRefused` | apps/loyalty/backup.py:181-236 | tables that pass every check, with evidence naming a payment of a booking no member made, whose captured rows are refused |
| `Captures.TakeSnapshot` | apps/loyalty/backup.py:158-236 | a capture ends and, unless the row limit is truly exceeded, gives a snapshot sealed in capture order that is accepted exactly when all evidence is reached, so always when every posting names only records of its own stay |
| `Ordering.Sorted` | apps/loyalty/backup.py:232 | a set has one ascending listing |
| `Ordering.AscendingIsUnique` | apps/loyalty/backup.py:232 | two ascending listings of the same elements are equal |
| `Snapshots.KeyOrder` | apps/loyalty/backup.py:232 | ordering rows by table and key text is a strict total order |
| `SnapshotLaws.CaptureOrderExactly` | apps/loyalty/backup.py:232 | rows are listed by table and within one by the text of the key: a shorter start or the smaller character at the first difference comes first |
| `Snapshots.Index` | apps/loyalty/backup.py:309-337 | indexes the rows and refuses exactly a repeated key |
| `Snapshots.CheckEvents` | apps/loyalty/backup.py:356-371 | accepts exactly the guest events with known kind and source, unique reference, own account and own ledger row |
| `Snapshots.TreeRowsRefer` | apps/loyalty/backup.py:338-354 | complete foreign keys make every tree row's members available to the tree check |
| `Snapshots.EntriesHaveMembers` | apps/loyalty/backup.py:440-441 | complete foreign keys give every posting a member |
| `Snapshots.CheckRows` | apps/loyalty/backup.py:309-508 | rows are accepted exactly when relations, identities, events, tree and ledger all fit |
| `Snapshots.Validate` | apps/loyalty/backup.py:254-508 | a snapshot is accepted exactly when sealed, sized and proper, and the report holds its ledger's totals |
| `SnapshotLaws.ValidExactly` | apps/loyalty/backup.py:254-508 | a snapshot is accepted exactly with its seal, a source name of three to a hundred characters, at most a hundred thousand rows of different keys, complete relations, sound audit rows, one link each, distinct numbers and accounts, a sound tree and a sound ledger |
| `Snapshots.EmptyIsValid` | apps/loyalty/backup.py:254-508 | a programme without members has an accepted snapshot |
| `Snapshots.Compare` | apps/loyalty/backup.py:511-546 | accepts exactly a valid snapshot that extends the valid previous one |
| `SnapshotLaws.ExtendsExactly` | apps/loyalty/backup.py:525-543 | one snapshot follows another exactly when source and time fit, no row is gone, links, revisions, postings, audit rows and offline receipts are unchanged, and every member keeps account, number and day of joining |
| `Snapshots.ExtendsSelf` | apps/loyalty/backup.py:511-546 | every snapshot may follow itself |
| `Snapshots.ExtendsTransitive` | apps/loyalty/backup.py:511-546 | following is transitive along valid snapshots |
| `Snapshots.OldLedgerIsPrefix` | apps/loyalty/backup.py:525-543 | the earlier ledger is a prefix of the later one, with the same programme and member balances at every point |
| `Snapshots.TreeHistoryStays` | apps/loyalty/backup.py:525-543 | every tree row ever captured is still recorded for the same member |
| `Snapshots.AcceptedTreeIsForest` | apps/loyalty/backup.py:380-429 | the tree of an accepted snapshot, whatever its texts, is the printed form of a sound forest |
| `Snapshots.CanonicalIsValid` | apps/loyalty/backup.py:629-634 | reordering an accepted snapshot and sealing it again keeps it accepted and keeps every row; doing it twice changes nothing |
| `Mirrors.ReadsOneThing` | apps/loyalty/backup.py:595-614 | a mirror reads as one snapshot at most |
| `Mirrors.ReadDisk` | apps/loyalty/backup.py:595-614 | reading returns the stored snapshot, nothing for a blank mirror, and an error exactly when neither holds |
| `Mirrors.UpsertRefinesReplace` | apps/loyalty/cloud_backup.py:157-163 | overwriting equals delete-and-insert exactly when no earlier row has disappeared |
| `Mirrors.UpsertLeavesRows` | apps/loyalty/cloud_backup.py:154-163 | over anything the snapshot may follow, the upsert leaves exactly the snapshot's rows |
| `Mirrors.LocalReadback` | apps/loyalty/backup.py:646-647 | after a local write the readback is exactly the sealed snapshot |
| `Mirrors.CloudReadback` | apps/loyalty/cloud_backup.py:168-171 | after a cloud write the readback succeeds exactly when the seal was taken in capture order, and then returns that snapshot |
| `MirrorDesk.UpsertShelf` | apps/loyalty/cloud_backup.py:157-163 | writes one table's rows over the stored ones and touches nothing else |
| `MirrorDesk.LocalMirror.DeleteRows` | apps/loyalty/backup.py:636-637 | empties all four tables |
| `MirrorDesk.LocalMirror.InsertRows` | apps/loyalty/backup.py:638-641 | files every row under its own key in its own table |
| `MirrorDesk.LocalMirror.Update` | apps/loyalty/backup.py:621-671 | accepts exactly what validates and follows, then holds its rows and nothing else; success is reported exactly when a snapshot is held |
| `MirrorDesk.CloudMirror.Read` | apps/loyalty/cloud_backup.py:105-136 | reads only rows in their own slots, within the limit, and snapshots of the own source |
| `MirrorDesk.CloudMirror.WriteRows` | apps/loyalty/cloud_backup.py:146-163 | table by table, overwrites without deleting |
| `MirrorDesk.CloudMirror.Write` | apps/loyalty/cloud_backup.py:157-172 | keeps the write exactly when the readback agrees, else undoes it |
| `MirrorDesk.CloudMirror.Update` | apps/loyalty/cloud_backup.py:143-184 | succeeds exactly for a valid snapshot of its own source, sealed in capture order, that follows the stored one; any refusal changes nothing |
| `MirrorDesk.CloudMirror.Failed` | apps/loyalty/cloud_backup.py:186-197 | what the mirror holds and the last success it reports stay, and it no longer claims that the last attempt worked |
| `MirrorDesk.CloudMirror.Run` | apps/loyalty/cloud_backup.py:199-208 | a reported success means the mirror reads as the snapshot just captured; after a failure it holds and reports as success what it did before |
| `MirrorRuns.LocalMirrorOnlyGrows` | apps/loyalty/backup.py:621-671 | after any run of accepted and refused updates the mirror holds a snapshot extending every one it accepted |
| `MirrorRuns.EveryLedgerIsPrefix` | apps/loyalty/backup.py:621-671 | every accepted ledger is a prefix of the mirror's present ledger |
| `MirrorRuns.CloudAcceptsWhatLocalDoes` | apps/loyalty/cloud_backup.py:143-171 | the cloud mirror accepts exactly what the local one accepts, restricted to its source and to seals in capture order |
| `MirrorRuns.CloudRefinesLocal` | apps/loyalty/cloud_backup.py:143-171 | whatever is offered, the overwriting mirror ends row for row where the replacing one ends on the fitting snapshots |
| `MirrorRuns.CloudMirrorOnlyGrows` | apps/loyalty/cloud_backup.py:143-171 | so the cloud mirror too extends everything it accepted |
| `BookingHistory.ClaimLinksExactly` | apps/accounts/booking_history.py:87-109 | claiming links exactly the unowned matching site requests and changes no owner |
| `ImportLaws.StartLinksOwn` | apps/accounts/booking_history.py:79-109 | a start gives a request an owner only if it is reserved, unowned and carries exactly the user's own address and number |
| `ImportLaws.StartLinksAll` | apps/accounts/booking_history.py:87-109 | after a start no reserved request with exactly that pair is left without an owner |
| `ImportLaws.FinishLinksOwn` | apps/accounts/booking_history.py:190-207 | a page links a request only to its worker's user, only when the request carries exactly that identity's pair, and only behind a row of the page with the pair |
| `ImportLaws.FinishWritesOwn` | apps/accounts/booking_history.py:190-229 | a page writes a recovered booking only for its worker's user and only from a row with that id and exactly that pair |
| `ImportLaws.OnlyOwnRequestsAreLinked` | apps/accounts/booking_history.py:79-315 | over a run, a request that a start or a page gives an owner carries exactly that user's address and number, as they were at the start or when the page was leased |
| `ImportLaws.WorkersWereLeased` | apps/accounts/booking_history.py:232-257 | every worker of a run carries the identity its user had when it got its lease |
| `ImportLaws.PageCounts` | apps/accounts/booking_history.py:273-289 | a committed page raises conflicts by the rows found to be somebody else's and skipped by the faulty ones, and every good row with the pair is settled afterwards |
| `BookingHistory.StoreMatchAccounts` | apps/accounts/booking_history.py:190-229 | storing one row links at most one record, counts it once, and leaves other owners alone |
| `BookingHistory.StoreAllAccounts` | apps/accounts/booking_history.py:279-289 | after any rows, failing ones included, the counter is the number of records newly linked |
| `ImportProtocol.StepKeeps` | apps/accounts/booking_history.py:125-315 | starts, leases, page results, queue failures and paid-stay links keep the whole protocol invariant |
| `ImportProtocol.RunKeepsInvariant` | apps/accounts/booking_history.py:125-315 | so does every interleaving of overlapping, dead and late workers |
| `ImportProtocol.PagesFormOneChain` | apps/accounts/booking_history.py:232-305 | the pages of a generation are one unbroken cursor chain without a repeated cursor, within the page limit, and no lease commits twice |
| `ImportProtocol.OwnersNeverChange` | apps/accounts/booking_history.py:190-229 | an owner, once set, never changes, with each page commit taken as one step |
| `ImportProtocol.AddedIsWhatWasLinked` | apps/accounts/booking_history.py:279-289 | at any time the job's counter is the number of records that had no owner before, and one after, a step of its generation |
| `ImportProtocol.CompletionShowsWhatWasSeen` | apps/accounts/booking_history.py:292-296 | at completion a recovered booking is visible exactly when that generation stored it |
| `ImportProtocol.LostLeaseNeverReturns` | apps/accounts/booking_history.py:253-271 | over a run, a worker that lost its job never holds it again |
| `ImportProtocol.OvertakenWorkersNeverWrite` | apps/accounts/booking_history.py:267-315 | a worker that lost its job at any moment, to a new generation, a later lease, a failure or its own commit, never writes again |
| `ImportProtocol.CommitsAndStartsOvertake` | apps/accounts/booking_history.py:139-147 | a commit, a later lease and a new generation each overtake the workers before them |
| `ImportProtocol.FinishPromise` | apps/accounts/booking_history.py:259-305 | a committed page is fetched with the cursor its generation's last page left |
| `ImportLaws.StartExactly` | apps/accounts/booking_history.py:125-149 | an import starts exactly for a verified guest with none at work in the last five minutes and none asked for in the last one, and then from nothing |
| `ImportLaws.LeaseExactly` | apps/accounts/booking_history.py:232-257 | a worker gets the lease exactly of a current, unfinished job no other lease holds, for the identity it was started with, for forty-five seconds |
| `ImportLaws.FinishExactly` | apps/accounts/booking_history.py:259-315 | a page is committed exactly by the worker that still holds the job, for the same identity, with at most a hundred rows of different positive ids, a new last row and no row that breaks; otherwise nothing changes, or the job stops with its lease given back |
| `ImportLaws.CommitTurnsJob` | apps/accounts/booking_history.py:290-305 | a committed page completes the job if empty, stops it at the thousandth page, and else queues the next one after its last row |
| `LinkRaces.StepKeeps` | apps/accounts/booking_history.py:190-229 | unlocked reads, conditional updates, creations, refreshes, commits and rollbacks of several transactions keep open links apart and ownerless |
| `LinkRaces.OwnersSetOnce` | apps/accounts/booking_history.py:190-229 | however they interleave, the owner of a request or a recovered booking, once committed, never changes |
| `LinkRaces.EveryLinkIsCountedOnce` | apps/accounts/booking_history.py:190-229 | every record that got an owner was linked by exactly one committed transaction, for that owner, and counted once |
| `LinkRaces.RefreshedForOwner` | apps/accounts/booking_history.py:209-228 | however they interleave, a recovered booking is only ever refreshed for its owner |
| `ImportProtocol.AttachKeeps` | apps/accounts/identity.py:79-143 | attaching a paid stay links only an ownerless request |
| `ImportLaws.AttachExactly` | apps/accounts/identity.py:79-143 | a paid stay gives its request to the member exactly when it is ownerless, in scope, the number is a member's, and something is due and all of it paid |
| `ImportDesk.Desk.ClaimLocal` | apps/accounts/booking_history.py:87-109 | assigns exactly the reserved, ownerless requests that carry both the e-mail and the phone of the identity, and returns how many |
| `ImportDesk.Desk.StartImport` | apps/accounts/booking_history.py:125-149 | a started generation has no pages, overtakes all workers of its user and changes no owner; a refusal changes nothing |
| `ImportDesk.Desk.LeasePage` | apps/accounts/booking_history.py:232-257 | the worker that gets the lease is the only one of its user that may still write, and carries the cursor the last page left |
| `ImportDesk.Desk.Store` | apps/accounts/booking_history.py:190-229 | one matched row is stored; a site request gets the user as owner exactly when it had none and carries both contact fields of the identity |
| `ImportDesk.Desk.StoreRows` | apps/accounts/booking_history.py:279-289 | all rows of a page, undone as a whole on an unexpected failure |
| `ImportDesk.Desk.Hide` | apps/accounts/booking_history.py:292-296 | hides exactly what the generation did not see of this user, and nothing of anybody else |
| `ImportDesk.Desk.FailPage` | apps/accounts/booking_history.py:306-315 | the worker can never write again, nothing it fetched is kept, and nothing changes if it was overtaken |
| `ImportDesk.Desk.FinishPage` | apps/accounts/booking_history.py:259-315 | commits the page right after the generation's last one or keeps all tables; the worker is done, and changes nothing if it was overtaken |
| `ImportDesk.Desk.DispatchFailed` | apps/accounts/booking_history.py:152-161 | exactly a queued or running job of the refused generation stops; a newer one and everything imported stay |
| `ImportDesk.Desk.AttachPaid` | apps/accounts/identity.py:79-143 | only a request nobody owned gets an owner, and only when paid in full; every other owner stays |
| `InvitationRegistry.ClaimOpens` | apps/loyalty/invitation_registry.py:140-205 | an eligible claim opens one undispatched row for that booking and touches no other; any other answer changes nothing |
| `RegistryLaws.FirstClaimExactly` | apps/loyalty/invitation_registry.py:140-205 | a booking without a row is granted exactly when its event is nobody else's, the guest is no member with no receipt in flight, the channel has a contact and no row of the person stands in the way; it then gets the new row for five minutes, in generation one |
| `RegistryLaws.NextClaimExactly` | apps/loyalty/invitation_registry.py:140-205 | a booking with a row is granted exactly under the same demands and when the row was given up or ran out, or is still claimed for this event with the same contacts, which changes nothing |
| `InvitationRegistry.ClaimKeepsSafe` | apps/loyalty/invitation_registry.py:140-205 | claiming keeps the rows safe for arbitrary membership and legacy answers |
| `InvitationRegistry.ConsumeKeepsSafe` | apps/loyalty/invitation_registry.py:214-274 | consuming grants only a row never dispatched, and afterwards no two dispatched rows share booking, phone, e-mail or customer |
| `RegistryLaws.ConsumeExactly` | apps/loyalty/invitation_registry.py:214-274 | a permit is granted exactly on a standing ticket, for the row's phone within its five minutes, to a known open booking of a guest who is no member, with no receipt in flight and nobody in the way; the row is then dispatched and keeps everything else |
| `RegistryLaws.RefusedConsumeExactly` | apps/loyalty/invitation_registry.py:222-270 | a refused consume gives an open claim up and changes nothing else |
| `InvitationRegistry.ClaimRenews` | apps/loyalty/invitation_registry.py:198-204 | a claim that changes a row reopens it under the next generation, and contacts change only then |
| `InvitationRegistry.TicketGoodExactly` | apps/loyalty/invitation_registry.py:208-222 | a ticket is good later exactly while its row keeps the generation and the ticket is at most five minutes old |
| `BookingInvitations.TicketLivesUntilReopened` | apps/loyalty/invitation_registry.py:208-222 | over a run, a ticket issued at one moment is good at a later one exactly while its row was not reopened in between |
| `BookingInvitations.OldTicketsStayRefused` | apps/loyalty/invitation_registry.py:208-222 | once a row was reopened, every ticket issued before is refused at every later moment of the run |
| `InvitationRegistry.RecordKeepsSafe` | apps/loyalty/invitation_registry.py:277-301 | an accepted report keeps the rows safe if and only if it is not a queue failure or block that would take over a dispatched row |
| `InvitationRegistry.HarmfulRecordAllowsSecondPermit` | apps/loyalty/invitation_registry.py:277-301 | any such report on a dispatched row lets a further claim and consume grant that row a second permit |
| `InvitationRegistry.RanksNeverDrop` | apps/loyalty/invitation_registry.py:294-299 | the final rank is the highest ever held or reported |
| `RegistryLaws.FinalStateExactly` | apps/loyalty/invitation_registry.py:294-299 | whatever the order of the reports, once read stays read, else delivered, else accepted; without any of these the last report stands |
| `RegistryLaws.RecordExactly` | apps/loyalty/invitation_registry.py:277-293 | a report is taken exactly when it is no claim, carries an id where the automation says the message got out, contradicts no known id, and the row was dispatched unless it gives the row up |
| `InvitationRegistry.ProviderIdWrittenOnce` | apps/loyalty/invitation_registry.py:290-300 | the provider id is written once and is one of those reported |
| `InvitationRegistry.StatusesListedOnce` | apps/loyalty/invitation_registry.py:295-297 | each reported status is listed once |
| `InvitationRegistry.OrderDoesNotMatter` | apps/loyalty/invitation_registry.py:277-301 | with a ranked report or row, two orders of the same reports end in the same state, provider id and set of statuses |
| `InvitationRegistry.UnrankedOrderMatters` | apps/loyalty/invitation_registry.py:294-299 | a pair of reports whose two orders end in different states |
| `InvitationRegistry.LastReportWins` | apps/loyalty/invitation_registry.py:294-299 | among unranked reports the last one decides the state |
| `InvitationRegistry.OrderMattersExactly` | apps/loyalty/invitation_registry.py:277-301 | two orders of the same reports end in the same state if and only if a ranked state is involved or both end with the same status |
| `BookingInvitations.StepKeeps` | apps/loyalty/booking_invitations.py:205-445 | every website and automation step keeps rows, permits, calls and waiting requests consistent |
| `BookingInvitations.RunKeepsInvariant` | apps/loyalty/booking_invitations.py:205-445 | so does every interleaving of both senders |
| `BookingInvitations.OneSendOnly` | apps/loyalty/invitation_registry.py:214-274 | in every run: one permit per row, one provider call per request, and nothing shared between dispatched rows |
| `BookingInvitations.DispatchIsForever` | apps/loyalty/invitation_registry.py:271-273 | a dispatched row stays dispatched to the same contacts |
| `BookingInvitations.QueueFailureNeverMeetsADispatch` | apps/loyalty/booking_invitations.py:313-324 | while a website request is still queued its row is not dispatched, so its queue failure is harmless |
| `InvitationDesk.Desk.ClaimEndpoint` | apps/loyalty/invitation_api.py:116-162 | on the desk the website uses too, a claim is eligible exactly when it can be granted, and then opens a row never dispatched, for this booking and these contacts, on which no website request waits; any other answer changes nothing |
| `InvitationLaws.AutoClaimExactly` | apps/loyalty/invitation_api.py:116-162 | the automation's claim is eligible exactly when the booking's own row, rows of the person, website requests, receipts, membership and event all allow it |
| `InvitationLaws.QueueExactly` | apps/loyalty/booking_invitations.py:205-285 | a press not yet saved is saved, for its channel and contacts, exactly when it can be granted; else nothing changes |
| `InvitationLaws.DeliverExactly` | apps/loyalty/booking_invitations.py:360-422 | the provider is called exactly for a request still queued, at most fifteen minutes old, with a ready booking and unchanged contacts, on a row that can be consumed |
| `InvitationLaws.PreflightExactly` | apps/loyalty/invitation_api.py:169-190 | the automation gets its permit exactly on a signed young ticket of its own row's present generation while the row can be consumed |
| `InvitationLaws.FinishExactly` | apps/loyalty/booking_invitations.py:295-310 | the provider's answer is booked exactly for a request being sent whose row takes it |
| `InvitationLaws.DispatchFailsExactly` | apps/loyalty/booking_invitations.py:313-324 | a request refused while queued is over and its row is given up; any other stays as it is |
| `InvitationDesk.Desk.PreflightEndpoint` | apps/loyalty/invitation_api.py:169-190 | a grant is made exactly when it may be, and is the row's only one ever, on a young ticket of its present generation, and nothing is shared with any dispatched row; without a grant nothing is dispatched |
| `InvitationDesk.Desk.RecordEndpoint` | apps/loyalty/invitation_api.py:193-209 | a report is taken exactly as an outcome of an own dispatched row; the rank never drops, the provider id stays, and no report frees a row for another permit |
| `InvitationDesk.Desk.LegacyShown` | apps/loyalty/invitation_registry.py:85-119 | finds a request in flight for the booking or the contact, except the excluded one |
| `InvitationDesk.Desk.QueueRequest` | apps/loyalty/booking_invitations.py:205-285 | a fresh press is saved exactly when it can be granted; pressing again changes nothing; a saved request waits alone on an undispatched website row and has called nobody |
| `InvitationDesk.Desk.DeliverRequest` | apps/loyalty/booking_invitations.py:360-422 | a call is made exactly when it may be, and is the request's only one, on the one permit of a row sharing nothing with dispatched ones; a redelivered task never sends |
| `InvitationDesk.Desk.FinishRequest` | apps/loyalty/booking_invitations.py:295-310 | an answer grants no permit and no call, keeps dispatches, and is booked only for a request being sent |
| `InvitationDesk.Desk.DispatchFailed` | apps/loyalty/booking_invitations.py:313-324 | no call was made for the refused request, it is over, its row is given up and may be claimed again at once; a request no longer queued stays |
| `PhoneIdentity.ApprovalKeepsOwners` | apps/accounts/identity.py:146-227 | an approved change keeps one owner per number over both tables and draws only fresh versions |
| `PhoneIdentity.BindingKeepsOwners` | apps/accounts/phone_auth.py:305-312 | binding a proven number keeps them too |
| `PhoneIdentity.PromotionKeepsOwners` | apps/accounts/phone_auth.py:316-322 | moving an approved number to the verified table cannot collide and keeps them too |
| `PhoneAuth.StepKeeps` | apps/accounts/phone_auth.py:131-335 | every step of approvals, challenges and guesses keeps ownership and challenge invariants |
| `PhoneAuth.RunKeepsInvariant` | apps/accounts/phone_auth.py:131-335 | so does every run of them |
| `PhoneAuth.NumbersHaveOneOwner` | apps/accounts/models.py:12-33 | at any time a number has one user in one table, and no user is in both |
| `PhoneAuth.EndedStaysEnded` | apps/accounts/phone_auth.py:131-335 | a failed, superseded, locked or consumed challenge never changes again |
| `PhoneAuth.AcceptedOnce` | apps/accounts/phone_auth.py:276-335 | a code is accepted at most once, only sent and unexpired, with the drawn code and fewer than five wrong guesses |
| `PhoneLaws.FiveGuesses` | apps/accounts/phone_auth.py:290-303 | in every run at most five guesses with missing or wrong digits are ever made at an open challenge from its session; after the fifth it is locked without a code and no later guess is accepted |
| `PhoneLaws.GuessCounts` | apps/accounts/phone_auth.py:290-303 | a refused guess at an open challenge with a missing or wrong code raises the count by exactly one and locks at the fifth; any other refused guess changes nothing |
| `PhoneLaws.BeginExactly` | apps/accounts/phone_auth.py:131-197 | a challenge begins exactly for an admitted visitor not signed in, or a verified guest, recently signed in and without a number, asking for one nobody has; for five minutes, aimed at the account that has the number |
| `PhoneLaws.PreviousGivesWay` | apps/accounts/phone_auth.py:174-181 | beginning ends the session's earlier challenge exactly if it was still open, and touches no other |
| `PhoneLaws.PrepareExactly` | apps/accounts/phone_auth.py:212-234 | a delivery takes a challenge exactly while it is pending, unexpired, of an allowed account whose captured number stands or may still become the guest's |
| `PhoneLaws.SendExactly` | apps/accounts/phone_auth.py:236-254 | the message leaves exactly while the challenge is still being sent and unexpired |
| `PhoneLaws.ReportExactly` | apps/accounts/phone_auth.py:212-265 | a report opens a challenge still being sent, or fails it and forgets the code, and leaves one that ended as it is |
| `PhoneLaws.AcceptExactly` | apps/accounts/phone_auth.py:276-335 | a guess is accepted exactly at an open challenge with its code, when the guest may now have the number or the captured one still stands |
| `PhoneLaws.ApproveExactly` | apps/accounts/identity.py:146-192 | an identity change goes through exactly when the page confirmed is still current, the new number is nobody else's, a shown number is not just removed and something changes |
| `PhoneLaws.SameNumberStays` | apps/accounts/identity.py:193-209 | a change of the e-mail alone moves no number |
| `PhoneAuth.OneMessage` | apps/accounts/phone_auth.py:212-265 | at most one message leaves per challenge, and its digest is kept exactly while sending or sent |
| `PhoneAuth.LoginNeedsUnbrokenBinding` | apps/accounts/phone_auth.py:200-209 | a login succeeds only if the binding captured at the start stood at every moment since |
| `PhoneAuth.OnlyProofVerifies` | apps/accounts/phone_auth.py:305-322 | a new verified number comes only from an accepted code sent to it for that user |
| `PhoneAuth.VerifiedWasProven` | apps/accounts/phone_auth.py:305-322 | every verified number was proven by its user at an earlier step |
| `PhoneAuth.AcceptanceSettlesOwner` | apps/accounts/phone_auth.py:296-335 | after acceptance the user owns the verified number and waits for no other, a bound number is the contact, and nobody else is touched |
| `PhoneAuth.ApprovalResetsOwner` | apps/accounts/identity.py:193-209 | after an approved new number the old proof is gone, the new number waits for proof and no open code of the user is left |
| `PhoneAuth.ApprovalEndsCodes` | apps/accounts/identity.py:205-209 | an approved identity change ends every earlier code of that user |
| `PhoneDesk.Desk.Approve` | apps/accounts/identity.py:146-227 | the change goes through exactly when it may; no open code of the guest is left, a new number loses the old proof and waits, nobody else is touched |
| `PhoneDesk.Desk.BeginChallenge` | apps/accounts/phone_auth.py:131-197 | a login captures the binding that stands, a bind a number nobody has; the session's earlier challenge is over |
| `PhoneDesk.Desk.TakeForDelivery` | apps/accounts/phone_auth.py:212-239 | the first and only task to take the challenge, before any message and before expiry, with a login's binding still standing |
| `PhoneDesk.Desk.CheckBeforeSend` | apps/accounts/phone_auth.py:248-253 | a message leaves only for a challenge not ended and unexpired, and it is the only one |
| `PhoneDesk.Desk.RecordDelivery` | apps/accounts/phone_auth.py:258-265 | opens the challenge for guesses or fails it, and never revives one that ended |
| `PhoneDesk.Desk.RecordQueueFailure` | apps/accounts/phone_auth.py:109-114 | a pending challenge ends without a message, one already taken is left to its task |
| `PhoneDesk.Desk.Guess` | apps/accounts/phone_auth.py:268-335 | an accepted code was sent, unexpired, the drawn one, after at most four wrong guesses, and its user now owns the number; a refused guess moves no number and the fifth wrong one locks |
| `Checkout.StepKeeps` | apps/loyalty/checkout.py:67-216 | every step keeps points either held or spent, and the mark set while a create may have succeeded |
| `Checkout.RunKeepsInvariant` | apps/loyalty/checkout.py:67-216 | so does every run of them |
| `Checkout.NextCreateNeedsDefiniteFailure` | apps/loyalty/checkout.py:154-216 | a further create is issued only after every earlier one came back with one of the three definite failures |
| `Checkout.UnresolvedKeepsHold` | apps/loyalty/checkout.py:67-128 | while a create may have succeeded, a step leaves the hold as it is if and only if it does not redeem it, and a redemption spends it in full |
| `Checkout.HoldCanBeSpentUnanswered` | apps/loyalty/services.py:737-775 | a run in which the hold is redeemed while the only create has no answer yet |
| `Checkout.HeldOrSpent` | apps/loyalty/checkout.py:67-216 | so over a run of unresolved outcomes the points stay held or were spent once, in full |
| `Checkout.SpentStaysSpent` | apps/loyalty/services.py:737-775 | a redemption never changes and never coexists with a hold |
| `Checkout.SplitCoversPrice` | apps/loyalty/checkout.py:45-64 | a frozen split of cash and points always makes up the documented price, and a confirmation leaves no cash |
| `Checkout.ConclusionExactly` | apps/loyalty/checkout.py:191-224 | lost availability, a changed price and a rejected create give the points back; a confirmed create spends them if they can be spent; any other answer changes nothing |
| `Checkout.HoldExactly` | apps/loyalty/services.py:672-717 | points are held exactly on a waiting or ready booking of the member that has none and no payment about, up to its lodging and to what is available |
| `Checkout.ReleaseExactly` | apps/loyalty/checkout.py:67-128 | held points are given back exactly while no create may have succeeded and no payment stands against a frozen split; the expiry asks for an expired request and no live stay as well |
| `Checkout.CashExactly` | apps/loyalty/checkout.py:14-64 | the cash due is the whole price without points, and with points the rest of it, exactly when the points are the present member's for a booking of lodging only |
| `Checkout.StartExactly` | apps/loyalty/checkout.py:154-188 | a create is issued exactly for a waiting, unmarked, unredeemed booking with the member's points for the whole price and no payment about |
| `Checkout.RedeemExactly` | apps/loyalty/services.py:737-775 | points are spent exactly on a live booking by the member who holds them and owns it |
| `Checkout.Desk.CollectCash` | apps/loyalty/checkout.py:14-64 | cash and points make up the price, the split is frozen and the allocation stays; a misfit changes nothing |
| `Checkout.Desk.HoldPoints` | apps/loyalty/services.py:672-717 | points go on a booking that has none, within what is available, while no create of it may have succeeded |
| `Checkout.Desk.Release` | apps/loyalty/services.py:720-734 | gives all held points back, never spent ones, and only when no create may have succeeded |
| `Checkout.Desk.ReleaseExpired` | apps/loyalty/checkout.py:102-128 | gives back only what is definitely unpaid: not a live stay, not a frozen split with a payment about, not an unresolved create |
| `Checkout.Desk.Redeem` | apps/loyalty/services.py:737-775 | the points allocated stay the same, a repeated call answers the same and changes nothing |
| `Checkout.Desk.BeginConfirmation` | apps/loyalty/checkout.py:154-188 | a create is issued only when every earlier one certainly failed and the points pay the whole price |
| `Checkout.Desk.Receive` | apps/loyalty/checkout.py:191 | an answer settles the create under way exactly when it is a definite failure |
| `Checkout.Desk.Conclude` | apps/loyalty/checkout.py:191-224 | a definite failure gives the points back and leaves nothing unresolved; any other answer keeps them allocated, held or spent |
| `Redirects.NewRedirectIsSafe` | apps/core/models.py:366-382 | adding a redirect closes a loop exactly when its destination already leads to its source |
| `Redirects.LoopsExactly` | apps/core/models.py:366-382 | the check finds a loop exactly when a trail of the other active rows leads from the new destination to the new source |
| `Redirects.TrailsNeverReturn` | apps/core/models.py:366-382 | among fitting redirects no trail of active rows comes back to where it started |
| `Redirects.WellFormedExactly` | apps/core/models.py:339-369 | a redirect is well formed exactly when its paths are plain internal ones outside the three protected areas, it leads somewhere unless it answers "gone", and not to itself |
| `Redirects.SaveKeepsFit` | apps/core/models.py:339-384 | a save that passes the check keeps the redirects loop-free, and for an active one the check refuses nothing else |
| `Redirects.RepeatNeverEnds` | apps/core/models.py:366-374 | a walk that comes back to a path never ends |
| `Redirects.Redirections.FindsLoop` | apps/core/models.py:366-382 | the visited walk ends and reports exactly the loops through the saved redirect |
| `Redirects.Redirections.Save` | apps/core/models.py:339-384 | saves exactly well-formed, uniquely sourced, loop-free rows, and following redirects from any path still ends |
| `Redirects.Redirections.Delete` | apps/core/models.py:339-384 | removing a row keeps the redirects loop-free |

## Left out

- ReferralDesk.Desk.LinkMembers: the reason arrives already stripped, and the guest events written beside each revision are not modelled.
- ReferralRuns.SettleFreezes: the reconciliation arithmetic around the chain is not modelled.
- BookingInvitations.OneSendOnly: the morning-stay branch of a consume, the reward issued beside a request and requests written by earlier releases without an identifier are not modelled; the last appear only as arbitrary receipts.
- ReferralDesk.Desk.Enroll: consent, account verification, the confirmation of an invitation token and the membership number are not modelled; the inviter arrives confirmed or not at all.
- Snapshots.Validate: one schema only; the zone of the capture time, the schemas of earlier releases, their reduced field sets, the byte limit and the per-table counts of the report are not modelled.
- Snapshots.Compare: date-times are integers, so the rewriting of `.000Z` endings is not modelled.
- MirrorDesk.LocalMirror.Update: the restriction to fictional local data, the database file and the recovery rehearsal are not modelled; a failed disk write is not modelled.
- MirrorDesk.CloudMirror.Read: the project and format fields of the manifest row are not modelled.
- ImportProtocol.OwnersNeverChange: a page commit is one step here; its reads, creations and conditional updates interleave in `LinkRaces`.
- ImportProtocol.PagesFormOneChain: booking requests are a fixed table, and the provider's page is an arbitrary list of rows with the faults they cause.
- PhoneAuth.AcceptedOnce: rate limits and cooldown are one arbitrary answer at the start of a challenge; e-mail, language and audit fields are not modelled.
- Checkout.Desk.CollectCash: the programme is taken as switched on, so the refusal of a paused programme is not modelled.
- Checkout.Desk.HoldPoints: available points are an input; receipts that answer a repeated request are not modelled, since they change nothing.
- Checkout.Desk.Release: receipts that answer a repeated request are not modelled, since they change nothing.
- InvitationDesk.Desk.DeliverRequest: the claim made inside a delivery for a request written without a shared row is not modelled.
- Redirects.Redirections.Save: saves run one after another; two saves at the same moment are not modelled.
- Phone and e-mail normalisation, HMAC, signing and expiry of signed tickets beyond their generation and age: opaque.
- Restoring points after a cancellation, accrual postings, withdrawals and the administration of the programme.
- Provider clients, messages, images, previews, templates, views, notifications, scheduling and feature switches.
