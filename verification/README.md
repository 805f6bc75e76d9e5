# Proofs about the VPN platform

A Dafny model of three connected parts of the platform, with proofs of what each is for.

**Split-tunnel addresses.** `words`, `text`, `blocks`, `cidr`, `decompose`, `merge`, `routing`, `tunnel`,
`split_tunnel` and `allocator` follow `internal/vpn/routing.go` and `internal/vpn/wireguard.go`: exclusion lines are parsed to
`uint32` ranges, sorted and merged, complemented over all of IPv4, cut into aligned blocks and printed in CIDR
notation (section 3.1 of RFC 4632). The loops work on wrapping 32-bit words. They are proved against sets of
addresses: a list of blocks is canonical for a set when it is aligned, ascending, exact, and no block fits into
a larger aligned one inside the set. A canonical list is unique, and no other list of aligned blocks with the
same union, overlaps allowed, is shorter.

**Subscriptions, keys and nodes.** `subscriptions`, `vpn_tables`, `vpn_load`, `vpn_repository`, `vpn_protocol`,
`vpn_trails`, `vpn_service`, `vpn_deletion`, `vpn_node`, `vpn_witnesses` and `agent` follow
`internal/vpn/service.go`, `internal/vpn/repository.go` and `cmd/agent/main.go`. Each SQL transaction is a function
from tables to tables and a method of a class over mutable tables, proved equal to it. Create, MigrateServer and
Delete are a state machine whose steps are the transactions and the node calls. Any number of operations
interleave, any of them may stop after any step, and a node call that was reported as failed may still take effect
later. The service methods are sequential code on top: between any two of their steps a method `Interfere` stands
for the rest of the system, and its contract admits all steps that others can take, as `OthersAllowed` proves. A
ghost trace ties what they do to steps of the machine. What the node, the object store, the issuer and the gateway
answer is an argument, so a contract says for every answer which steps the method takes; it gives up only where the
code does. Each contract also covers the case that nobody else is there, when the trace grows by the steps of the
method and nothing more; so a method can do nothing on the side (`traces`).

**Orders, promos, ledger and renewals.** `billing_tables`, `billing_repository`, `billing_protocol`,
`billing_outcomes`, `billing_expiry`, `billing_service`, `billing_witnesses`, `ledger`, `renewals` and `pricing`
follow `internal/billing`, in the same manner: functions, a repository class, a state machine for duplicate, late
and contradictory callbacks, and the service on top.

Where the code and its comments or expectations part, the code is followed. After a range
that ends at the last address, `mergeRanges` appends every later range, so its normal form holds only up to
there; the complement is right all the same. The comment at `internal/vpn/repository.go:96-97` speaks of locking
the server row, but what keeps addresses apart is the unique index. And a deletion reads the key rows of a
subscription in no fixed order, so after a migration it may withdraw an old credential from the node. Every such
property is given with the exact condition under which the code has it and a run in which it fails.

Rows are identified by their position in their table where the program uses random identifiers; credentials come
from a counter, so they are never repeated. Money is in hundredths. Time, randomness, the answers of nodes,
gateways and the object store, and the order in which the database returns rows are parameters or arbitrary
choices.

## Model

| member | source | states |
|---|---|---|
| Blocks.CanonicalIsMinimal | internal/vpn/routing.go:110-158 | No list of aligned blocks with the same union, overlaps allowed, is shorter than a canonical one. |
| Blocks.CanonicalIsUnique | internal/vpn/routing.go:110-158 | A set of addresses has at most one canonical list. |
| Blocks.NestedOrDisjoint | internal/vpn/routing.go:137-147 | Two aligned blocks that share an address are nested. |
| Decompose.LargestBlock | internal/vpn/routing.go:137-147 | The bit counting of the loop body picks the largest aligned block that starts at the cursor and fits the rest, including at address 0 and for the whole space. |
| Decompose.RangeToCIDRs | internal/vpn/routing.go:134-158 | The loop with its 64-bit successor and its break prints exactly the greedy blocks of the range, and ends at the last address too. |
| Decompose.GreedyIsCanonical | internal/vpn/routing.go:134-158 | The greedy blocks of any range cover it exactly, are aligned and ascending, and none fits into a larger one inside the range. |
| Decompose.GreedyIsOptimal | internal/vpn/routing.go:134-158 | No list of aligned blocks whose union is the range is shorter. |
| Decompose.AtMost62Blocks | internal/vpn/routing.go:136-156 | Any range takes at most 62 blocks. |
| Decompose.SixtyTwoBlocksNeeded | internal/vpn/routing.go:136-156 | The range without the first and the last address takes 62. |
| Merge.SortByStart | internal/vpn/routing.go:95 | Sorting in place orders by start and permutes; ties may end up in any order. |
| Merge.MergeRanges | internal/vpn/routing.go:91-108 | For every input order: the array ends up sorted and permuted, the result covers the same addresses, and up to the first range ending at the last address neighbours are at least one address apart. |
| Merge.MergeOneKeeps | internal/vpn/routing.go:98-105 | One step of the loop, with its wrapping last.end+1, keeps the normal form: the wrap never decides. |
| Merge.MergeOneCovers | internal/vpn/routing.go:98-105 | One step adds exactly the addresses of its range. |
| Merge.FullySeparatedIff | internal/vpn/routing.go:99-105 | All neighbours are separated if and only if no range but the last ends at the last address. |
| Routing.Add | internal/vpn/routing.go:64-81 | A line adds the range of its prefix, wrapping shift and /0 included; a blank or malformed line adds nothing. |
| Routing.CoveredIffExcluded | internal/vpn/routing.go:64-88 | The ranges of some lines cover an address exactly when its leading bits match a prefix that some line names. |
| Routing.ExcludedRanges | internal/vpn/routing.go:62-89 | The merged ranges cover exactly the addresses that some line of the embedded text or of the private list names. |
| Routing.ComputeComplement | internal/vpn/routing.go:112-131 | The loop over cursor and gaps prints the blocks of the complement, with its early return at the last address. |
| Routing.ComplementIsCanonical | internal/vpn/routing.go:112-131 | For ranges that are disjoint up to the first one ending at the last address, the blocks of all gaps together are canonical for what no range covers. |
| Routing.ComplementSize | internal/vpn/routing.go:112-131 | At most 62 blocks per gap. |
| SplitTunnel.SplitAllowed | internal/vpn/routing.go:52-57 | For any embedded text and private list: an entry of the printed list names an address exactly when no line of the text and no line of the private list does, and the list is the canonical one for these addresses. |
| SplitTunnel.SplitCache.AllowedIPsFor | internal/vpn/routing.go:48-59 | In split mode an entry names an address exactly when no line of the embedded text and no private network does; the list is computed once and then unchanged. In any other mode the entries name every address. |
| SplitTunnel.FullNamesAll | internal/vpn/routing.go:45-51 | The entries of the full list name every IPv4 address. |
| SplitTunnel.PrivateNetworks | internal/vpn/routing.go:31-35 | The private list names exactly fourteen networks, given as numbers: this, private, shared, loopback, link-local, test, benchmark, multicast and reserved addresses. |
| Text.PaddedTrim | internal/vpn/routing.go:65 | White space before or after a line, a carriage return included, does not matter. |
| Text.TrimmedPart | internal/vpn/routing.go:65 | Trimming takes away white space at both ends, all of it and nothing else. |
| Text.JoinSplit | internal/vpn/routing.go:83 | Splitting at a character cuts at all its occurrences, and joining puts the parts together again. |
| Cidr.PrefixRangeIsBlock | internal/vpn/routing.go:73-80 | start + size - 1 in wrapping words is the true end of the prefix for every length 0 to 32. |
| Cidr.PrefixMembership | internal/vpn/routing.go:69-80 | An address lies in the range of a prefix exactly when its leading bits are those of the network. |
| Cidr.PrintedBlockReadBack | internal/vpn/routing.go:148-149 | Every printed block parses back to its prefix. |
| Cidr.OctetsReadBack | internal/vpn/routing.go:160-164 | Every printed address parses back to itself. |
| Cidr.ParsedIffPrinted | internal/vpn/routing.go:69-74 | The texts that parse as an address are exactly the printed addresses. |
| Cidr.ParsedExactly | internal/vpn/routing.go:69-78 | The texts that parse as a prefix are exactly a printed address, a slash and a length up to 32, zeros in front allowed; the network is the address less its remainder by the block size. |
| Cidr.Itoa | internal/vpn/routing.go:166-178 | Filling a byte buffer from the right gives the decimal numeral, and the empty string for a negative number. |
| Tunnel.ReadBack | internal/vpn/routing.go:52-57 | Joining the printed blocks, splitting and parsing gives back the same ranges, also for no block at all. |
| Tunnel.TunnelledIffNotExcluded | internal/vpn/routing.go:48-89 | An address lies in an entry of the printed text exactly when no exclusion line names it. |
| Tunnel.PrintedListIsShortest | internal/vpn/routing.go:110-158 | The printed text has no more entries than any list of aligned blocks for the same addresses. |
| Tunnel.PrintedListIsDetermined | internal/vpn/routing.go:48-158 | Texts that exclude the same addresses give the same printed list, character by character. |
| Tunnel.ComplementTwice | internal/vpn/routing.go:110-131 | Feeding the printed list back in twice covers exactly the excluded addresses, and a third time restores the list. |
| SplitTunnel.SplitThrice | internal/vpn/routing.go:48-89 | On the code itself: computing the list, the list for its entries, and the list for those gives a list that names what no line of either list does, then one that names what some line does, and then the first list again. |
| Allocator.AllocateWireGuardIP | internal/vpn/wireguard.go:48-83 | Returns the least address at offsets 2 to two below the size of the subnet that no entry of the used list names, as text with /32; fails exactly for a bad subnet or when all of them are named. |
| Allocator.TakenAddresses | internal/vpn/wireguard.go:58-67 | The taken set holds exactly the addresses named by the entries, with or without a mask, junk ignored. |
| Allocator.UsedExactly | internal/vpn/wireguard.go:59-67 | An entry names an address exactly when what stands before its first slash, trimmed, is the printed address. |
| Allocator.ChoiceIsLeast | internal/vpn/wireguard.go:73-82 | The choice is a host at offset 2 to size-2, free, with all lower ones taken; there is none exactly when all are taken. |
| Allocator.SucceedsBelowCapacity | internal/vpn/wireguard.go:69-82 | With fewer than 2^(32-p)-3 hosts taken the allocation succeeds. |
| Allocator.HostsWithinCapacity | internal/vpn/wireguard.go:72-73 | Hosts of a subnet number at most its capacity. |
| Allocator.SuccessiveAllocations | internal/vpn/wireguard.go:48-83 | From no used address exactly capacity-many successive allocations succeed, in ascending order. |
| Allocator.AllocatedIsTaken | internal/vpn/wireguard.go:59-67 | An address given out reads back as taken, with or without its mask. |
| Agent.XrayAgent.InboundSettings | cmd/agent/main.go:299-317 | Finds the first inbound with the tag; tells a missing array from a missing tag. |
| Agent.XrayAgent.Filter | cmd/agent/main.go:267-282 | The loop adds a client that is not listed, or drops every match. |
| Agent.XrayAgent.EditXrayClients | cmd/agent/main.go:246-296 | Which of the failures is reported, and what the file and the running process hold after each, a failed reload after a write included. A write changes the clients of the first inbound with the tag and nothing else: all other inbounds, all other fields of the configuration, of the inbound and of its settings stay. |
| Agent.EditIsSetEdit | cmd/agent/main.go:267-283 | An edit adds or removes one value from the set of listed values and no other. |
| Agent.RemoveUndoesAdd | cmd/agent/main.go:267-283 | Removing a client that was not listed before undoes adding it. |
| Agent.EditTwice | cmd/agent/main.go:267-283 | Repeating an edit changes nothing. |
| Agent.EditFrame | cmd/agent/main.go:283-289 | An edit changes no inbound but the one found. |
| Agent.EditMeans | cmd/agent/main.go:267-289 | The client is put behind the others unless one of them has the value, or those with the value are dropped, in the first inbound with the tag; every other part of the configuration is equal. |
| Agent.WithoutConcat | cmd/agent/main.go:270-279 | Dropping goes through the list from front to back, so the order of the others stays. |
| Agent.XrayAgent.EditVLESS | cmd/agent/main.go:175-180 | After success the VLESS inbound lists the same values as before, plus or minus the one given; a new client has just that id and the configured flow. |
| Agent.XrayAgent.EditSS | cmd/agent/main.go:183-211 | The same for Shadowsocks, by email; a new client has just that email and the password given. |
| Agent.XrayAgent.EditTrojan | cmd/agent/main.go:214-242 | The same for Trojan, by email; a new client has just that email, the password given and the configured flow. |
| VpnRepository.Repository.Persist | internal/vpn/repository.go:98-143 | All four rows change together, or nothing does when the unique index refuses the key. |
| VpnRepository.Repository.Reassign | internal/vpn/repository.go:305-351 | Revokes, versions, inserts, moves and recounts as one transaction, or changes nothing. |
| VpnRepository.Repository.NextVersion | internal/vpn/repository.go:312-318 | One more than the greatest version of the subscription. |
| VpnRepository.Repository.SoftDelete | internal/vpn/repository.go:451-522 | Deletes exactly if the subscription is there, belongs to the user and is not deleted, and then reports the key material that the row order picks; else changes nothing. |
| VpnRepository.Repository.ListUsedIPs | internal/vpn/repository.go:354-372 | As text, exactly the addresses of the keys of the server that are active. |
| VpnRepository.Repository.OldKeyForSub | internal/vpn/repository.go:288-301 | The newest active key of a subscription, or none if there is none. |
| VpnRepository.Repository.ActiveSubsOnServer | internal/vpn/repository.go:233-253 | Every active subscription of the server, each once. |
| VpnRepository.Repository.SelectServer | internal/vpn/repository.go:42-58 | Of the serving servers of the country that have the columns for the protocol, one with the wanted reserve flag if there is any, of those one of the least priority, of those one with the fewest clients; none only if there is no such server. The reserve query at 269-285 is the same with reserve servers first and one server excluded. |
| VpnRepository.BestMeans | internal/vpn/repository.go:42-58 | What the preferred server is, in terms of the columns of all rows. |
| VpnTables.SelectedNotConfigured | internal/vpn/repository.go:60-71 | A server that was selected fails to generate for lack of configuration exactly when reality_sni (VLESS, Trojan) or ss_method (Shadowsocks) is null, which the selection does not ask for. |
| VpnTables.PickedMeans | internal/vpn/repository.go:473-489 | A deletion picks the first key row with a public key, or the last row if none has one. |
| VpnTables.VersionsAreRanks | internal/vpn/repository.go:312-318 | The versions of a subscription are exactly 1 to n in order of insertion. |
| VpnTables.OneLiveCredential | internal/vpn/repository.go:98-143 | A subscription that is not deleted has exactly one active key, on its server and of its newest config; a deleted one has none. |
| VpnTables.ServedConfigIsLive | internal/vpn/repository.go:422-430 | The config with the greatest version, which the user is served, is the one whose key is active. |
| VpnTables.PersistKeeps | internal/vpn/repository.go:98-143 | Persist keeps the tables consistent. |
| VpnTables.ReassignKeeps | internal/vpn/repository.go:305-351 | Reassign keeps the tables consistent and leaves the new key as the only active one. |
| VpnTables.SoftDeleteKeeps | internal/vpn/repository.go:502-511 | SoftDelete keeps the tables consistent. |
| VpnTables.ActiveKeysWithinCapacity | internal/vpn/wireguard.go:69-73 | When active addresses are distinct hosts, a server has at most 2^(32-p)-3 active keys with an address. |
| VpnLoad.PersistLoad | internal/vpn/repository.go:134-137 | Persist keeps every client_count equal to the number of live subscriptions of its server. |
| VpnLoad.SoftDeleteLoad | internal/vpn/repository.go:502-511 | So does SoftDelete, and the clamp at zero never acts. |
| VpnLoad.ReassignLoad | internal/vpn/repository.go:335-343 | So does Reassign if and only if the subscription is still live where it was listed, or deleted meanwhile with a zero count there. |
| VpnLoad.CountsAddUp | internal/vpn/repository.go:335-343 | With exact counts their sum is the number of live subscriptions. |
| VpnProtocol.StepKeeps | internal/vpn/service.go:69-108 | Every transaction and every node call, under any interleaving, keeps the invariant that the next rows draw on. |
| VpnProtocol.ReachableSafety | internal/vpn/service.go:69-108 | In every reachable state each active key has its client installed on its server's node, active addresses are distinct hosts of their subnets, and the tables are consistent. |
| VpnProtocol.RemoveKeeps | internal/vpn/service.go:311-341 | Taking a revoked credential off a node, however late, removes no active client and none about to be committed. |
| VpnProtocol.CommitKeeps | internal/vpn/service.go:470-475 | A commit after a successful node call keeps the invariant, and so does one that the index refuses. |
| VpnProtocol.DeleteKeeps | internal/vpn/repository.go:473-511 | Whatever row the scan picks, the credential to withdraw is revoked by the same transaction. |
| VpnProtocol.RowsOverRun | internal/vpn/repository.go:305-351 | Over any run a revoked key never becomes active again; configs stay, and so do what was subscribed to and the server rows except status and count. |
| VpnProtocol.StepLoad | internal/vpn/repository.go:134-137 | A step keeps the counts exact if and only if it is no move that commits for a subscription gone from where it was listed. |
| VpnProtocol.LoadOverRun | internal/vpn/repository.go:335-343 | Over runs without such moves every server counts exactly its live subscriptions, and the counts add up. |
| VpnProtocol.UncontestedCommitSucceeds | internal/vpn/service.go:194-201 | An allocated address passes the unique index whenever no key was added on the server in between. |
| VpnProtocol.RefusedForAddress | internal/vpn/repository.go:120-133 | A transaction is refused only because an active key on the server has the address, for a move a key of another subscription. |
| VpnProtocol.RefusalsOverRun | internal/vpn/repository.go:120-133 | The same for every refusal in every run, at its moment. |
| VpnProtocol.NothingToGive | internal/vpn/service.go:128-225 | Generating fails exactly when the server is not configured for the protocol or, for WireGuard, all its host addresses are held. |
| VpnProtocol.GenerateNeeds | internal/vpn/service.go:128-225 | Generating succeeds exactly when the columns for the protocol are there and, for WireGuard, some host address is held by no active key of the server. |
| VpnProtocol.GeneratedMeans | internal/vpn/service.go:182-225 | What is generated has a credential that was not used before, and for WireGuard the least host address that no active key of the server has. |
| VpnProtocol.CreateIssues | internal/vpn/repository.go:98-143 | A create that commits adds the subscription as asked for, with one config of version 1 and an active key on the server, whose client is installed. |
| VpnProtocol.MoveRelocates | internal/vpn/repository.go:305-351 | A move that commits leaves the subscription active on the other server, its new key active there and the client installed. |
| VpnProtocol.DeletedUnlessMoved | internal/vpn/repository.go:335 | A deletion lasts through a run if and only if no move of the subscription commits in it. |
| VpnProtocol.OnlyOwnerDeletes | internal/vpn/repository.go:461-467 | Over any run a subscription becomes deleted only by a deletion that its own user asked for. |
| VpnDeletion.DeletionTargetOfScan | internal/vpn/repository.go:473-489 | A deletion withdraws the live credential exactly when the deciding row is the live key: the first row for WireGuard, the last one otherwise. |
| VpnDeletion.DeletionIsSureIffNeverMigrated | internal/vpn/repository.go:473-489 | It withdraws the live credential for every row order if and only if the subscription was never migrated. |
| VpnWitnesses.DeletedButInstalled | internal/vpn/repository.go:473-489 | A run from a fresh installation: a migrated subscription is deleted, every removal succeeds, nothing is under way, and the client of its last key is still installed. |
| VpnWitnesses.DeletedAndRevived | internal/vpn/repository.go:335 | A run in which a deleted subscription becomes active again. |
| VpnWitnesses.CountsDrift | internal/vpn/repository.go:335-343 | A run in which two migrations of one subscription leave two counted clients for one live subscription. |
| VpnWitnesses.SkippedDespiteRoom | internal/vpn/service.go:433-447 | Tables in which the preferred reserve server is full, so that a move is skipped, while another candidate could take it. |
| VpnService.AssignAddress | internal/vpn/service.go:194-214 | Through its text form, the address assigned is the least free host of the subnet. |
| VpnService.Platform.Create | internal/vpn/service.go:44-110 | Whatever others do in between, its own steps are: begin on the preferred server, then add on the node, which fails exactly when the node says so; then give up exactly when the config could not be stored, and else commit, or be refused by the unique index. It succeeds exactly when it commits, with the row on that server, an active key there and its client installed. The preferred server is the one of least load as the order of the columns says. It takes no step only if no server qualifies or the preferred one is not configured for the protocol or has no address left. |
| VpnService.Platform.DeleteVpn | internal/vpn/service.go:311-348 | A subscription is deleted exactly if it is there, belongs to the user and is not deleted. The database goes first, and then the node is called once if and only if the scan picked a credential, which is gone from the node when the call succeeds; anything else changes nothing. |
| VpnService.Platform.MigrateOne | internal/vpn/service.go:432-475 | One round of the loop: no step if there is no candidate or the preferred one cannot give material, and else a move to the preferred one, node before database before removal of the key that was active. When the node takes the client and the config can be stored, the transaction is tried. migrated holds exactly when it succeeded, which puts the subscription on the other server; when the removal succeeds too, the old credential is gone from the old node. |
| VpnService.Platform.MigrateServer | internal/vpn/service.go:424-481 | What happens is one such attempt after the other, one for each subscription active on the server, in order; exactly those whose transaction succeeded are reported, and none is given up before it unless the node or the store failed. |
| VpnTrails.OthersAllowed | internal/vpn/service.go:424-481 | Any steps that others can take, in any number, keep what an operation in progress relies on between two of its own. |
| VpnNode.AddShows | cmd/agent/main.go:246-296 | A node whose configuration lists exactly the installed clients still does after an edit that succeeds, which is the protocol's successful add. |
| VpnNode.FailedReloadShows | cmd/agent/main.go:289-294 | An edit whose reload fails leaves the running process as it was, and loading the file later is the protocol's late add. |
| VpnNode.RemoveShows | cmd/agent/main.go:246-296 | The same for a removal. |
| VpnNode.ActiveKeysListed | internal/vpn/service.go:69-108 | In every reachable state such a node lists the client of every active key of its server. |
| BillingRepository.Repository.CreateOrder | internal/billing/repository.go:102-154 | An order with the columns asked for, promo count and redemption together, or nothing: references to missing users, plans, countries, promos or subscriptions, inactive or used-up promos, and promos already redeemed are told apart. |
| BillingRepository.Repository.CountRecentPending | internal/billing/repository.go:73-83 | The number of the user's unpaid orders placed after a time. |
| BillingRepository.Repository.ClaimForProvisioning | internal/billing/repository.go:231-243 | True exactly for an order that waits for payment, which becomes processing. |
| BillingRepository.Repository.FinalizePaid | internal/billing/repository.go:247-282 | Pays an unsettled order with the subscription and the time, marks its payments and no others, and adds one ledger entry for its user, amount and currency; or changes nothing. |
| BillingRepository.Repository.MarkFailed | internal/billing/repository.go:285-298 | Fails an unsettled order only, but every payment of the order. |
| BillingRepository.Repository.AppendLedger | internal/billing/repository.go:301-322 | The entry continues the hash of the user's newest row. |
| BillingRepository.Repository.PreviousHash | internal/billing/repository.go:302-308 | The hash of the user's row with the greatest time and id, or nothing if there is no row. |
| BillingRepository.Repository.ExtendSubscription | internal/billing/repository.go:214-227 | Extends from the later of expiry and now and reactivates; a deleted or unknown subscription is an error. |
| BillingRepository.Repository.Sweep | internal/billing/expirer.go:39-51 | Expires exactly the active rows past their grace period and counts them. |
| BillingTables.PromoGuard | internal/billing/repository.go:126-148 | A promo order succeeds exactly when the promo is active, fewer orders than its limit carry it, and none of them is by the same user. |
| BillingTables.CreateOrderKeeps | internal/billing/repository.go:102-154 | Creating an order keeps the promo and ledger accounts. |
| BillingTables.FinalizeKeeps | internal/billing/repository.go:247-282 | So does finalizing, and every other order stays as it is. |
| BillingProtocol.StepKeeps | internal/billing/service.go:197-238 | Every step, of any callback, keeps the invariant, and orders only move forward. |
| BillingProtocol.ReachableBooks | internal/billing/service.go:142-238 | In every reachable state: no order was issued twice, a paid one exactly once; charges and paid orders match one to one with equal sums per user and currency; paid orders have a subscription and a time; used_count is the number of redemptions and of orders with the promo, within its limit; nobody redeemed twice. |
| BillingProtocol.OrdersOverRun | internal/billing/repository.go:229-298 | Over any run statuses go from waiting to processing to paid or failed, those are never left, and the ledger only grows. |
| BillingProtocol.PaidUnlessFailed | internal/billing/service.go:198-232 | A claimed and issued order can be finalized if and only if no failure callback for it came after the claim. |
| BillingOutcomes.ReasonsOverRun | internal/billing/service.go:197-238 | In every run, whenever a fulfilment gives up there is a reason in the tables of that moment: the plan of the renewal is not active, the renewed subscription is deleted, or the order was failed; the issuer is asked for new subscriptions only, and a claim is missed only on an order that does not wait for payment. |
| BillingOutcomes.PaidIffFinished | internal/billing/service.go:198-238 | An order that was issued and whose fulfilment has ended is paid, now and for ever, if and only if no failure callback for it came before the last step of the fulfilment and that step was not an abort. |
| BillingOutcomes.PayableIffWorkable | internal/billing/service.go:198-238 | An order in processing can still get paid in some run, without a migration reviving the subscription that it renews, if and only if a fulfilment is at work on it that has issued, or is for a new subscription, or whose renewed subscription is not deleted and whose plan was found or is there to be found. |
| BillingOutcomes.LeftBehindForEver | internal/billing/service.go:198-232 | A claimed order that nobody is at work on is never issued or paid in any run, whatever callbacks come. |
| BillingProtocol.MirroredUnlessSplit | internal/billing/repository.go:286-298 | Payments of paid orders stay successful and those of failed ones failed, throughout a run, if and only if no failure comes for a paid order with a payment and no payment is registered out of line with its order. |
| BillingWitnesses.IssuedButUnpaid | internal/billing/service.go:198-232 | For every order, a run from empty books in which its subscription is issued, a failure callback comes, and nothing is paid. |
| BillingWitnesses.IssuedAndLeftBehind | internal/billing/service.go:198-232 | For every order, a run that dies after issuing, after which the order is never paid whatever follows. |
| BillingWitnesses.DeletedRenewalIsNeverPaid | internal/billing/repository.go:214-227 | A run in which a renewal is claimed and its subscription then deleted: a fulfilment is at work on the order, and no run pays it unless a migration revives the subscription. |
| BillingWitnesses.PaidWithFailedPayment | internal/billing/repository.go:286-298 | For every order, a run that ends with the order paid and its payment failed. |
| BillingWitnesses.TiedPaymentsBreakChain | internal/billing/repository.go:301-322 | Three purchases of a user, two of them finalized at the same time against the order of their ids: the ledger does not verify as a chain, or it exhibits a collision. |
| BillingProtocol.ChainsOverRun | internal/billing/repository.go:301-322 | When each entry exceeds the earlier ones of its user by time and id, every user's ledger is one chain whose hashes verify. |
| BillingProtocol.ForgeriesCollide | internal/billing/repository.go:301-322 | A verified chain with the same head hash as such a ledger equals it entry by entry, or two of their payloads collide, when no currency contains the separator. |
| Ledger.PayloadInjective | internal/billing/repository.go:309-312 | The joined payload determines all seven fields when the texts are free of the separator. |
| Ledger.MoneyInjective | internal/billing/repository.go:309-310 | The two-decimal format determines the amount, sign included. |
| Ledger.MoneyReadsBack | internal/billing/repository.go:309-310 | The text of an amount is a sign if it is negative, the units, a point and two digits, which together make up the hundredths. |
| Ledger.PayloadReadsBack | internal/billing/repository.go:309-310 | The payload is the seven fields in their order between separators. |
| Ledger.AppendKeepsChain | internal/billing/repository.go:301-322 | An append keeps its user's chain linear if and only if the user's newest row by time and id is the one written last, unless the chain exhibits a collision. |
| Ledger.AppendIsNewest | internal/billing/repository.go:303-304 | The row that an append writes is the newest one if and only if its time and id exceed those of all the user's rows. |
| Ledger.ConcurrentAppendsFork | internal/billing/repository.go:301-322 | Two appends computed from the same rows never leave a linear chain, unless it exhibits a collision. |
| Ledger.DistinctHashes | internal/billing/repository.go:309-312 | Two entries of one verified chain with the same hash exhibit a collision. |
| Ledger.AppendInOrder | internal/billing/repository.go:301-322 | With every row newer than those before it, by time and id, it always is. |
| Ledger.TamperEvident | internal/billing/repository.go:309-312 | Two verified chains with the same head hash agree in every hashed column, or exhibit a collision. |
| BillingService.Cashier.Fulfill | internal/billing/service.go:197-238 | A caller that misses the claim takes no other step and gets what is stored. The one that claims the order issues once, for the user, country, protocol and plan of the order, and finalizes: success means paid with the returned subscription, the renewed one for a renewal, extended by the days of the plan. It fails only where the code does: the plan of a renewal is not there, the renewed subscription is deleted, the issuer fails, or the order was failed meanwhile; then it is claimed or failed. |
| BillingService.Cashier.FulfillOrder | internal/billing/service.go:186-192 | An unknown order is an error without effect; otherwise the steps, their reasons and the outcome are those of fulfill, the stored subscription of a repeated call included. |
| BillingService.Cashier.HandleWebhook | internal/billing/service.go:142-174 | A success callback is one fulfilment with those steps and reasons, answered with an error exactly when that is one; a failure callback is one failure and leaves the order failed or paid; other callbacks take no step. |
| BillingService.Cashier.Buy | internal/billing/service.go:58-116 | However many steps others take in between, four moments decide: the plan at the first, what the code is worth at the second, the unpaid orders at the third, and creation at the fourth. The order is for the user, plan, country, protocol and renewal asked for, in the currency of the plan; amount and discount add up to the price, or the amount is nothing when the discount exceeds it; a blank code means no discount. A refusing gateway leaves the new order failed, or paid if somebody settled it meanwhile; otherwise the payment is recorded with the status that the gateway gave. |
| BillingService.WhatIsPaid | internal/billing/service.go:72-77 | For a price that is not negative: without a code the full price is paid, with a percentage from 0 to 100 the rest of it up to half a hundredth, with a fixed amount the difference but never less than nothing, with an unknown type the full price. |
| BillingService.OthersAllowed | internal/billing/service.go:142-238 | Any steps that others can take, in any number, keep what a callback in progress relies on between two of its own. |
| Renewals.RenewalClosedForm | internal/billing/repository.go:214-227 | After any renewals the expiry is the maximum of the start plus all days and, for each renewal, its time plus the days from then on. |
| Renewals.ExpiryNeverDecreases | internal/billing/repository.go:214-227 | With plans of non-negative length the expiry never falls below the start. |
| Renewals.NeverExpiredEarly | internal/billing/expirer.go:39-51 | A subscription is found expired only if a sweep came after that maximum plus the grace period. |
| Renewals.SweepIsExact | internal/billing/expirer.go:39-51 | With a clock that never runs back, a subscription that is not deleted is active right after a sweep if and only if the grace period is not over. |
| BillingExpiry.RowOverRun | internal/billing/repository.go:214-227 | Over any run of the protocol a subscription changes by its own renewals, sweeps, migrations and deletion and by nothing else. |
| BillingExpiry.ExpiryOverRun | internal/billing/repository.go:214-227 | In every reachable state the expiry of a subscription that was once active is the stated maximum, over the renewals that took effect in the run. |
| BillingExpiry.ExpiredWasDue | internal/billing/expirer.go:39-51 | In every reachable state an expired subscription was swept after its expiry plus the grace period. |
| BillingExpiry.SweepOverRun | internal/billing/expirer.go:39-51 | In every reachable state, when the clock never ran back, a sweep leaves a subscription that is not deleted active if and only if its grace period is not over. |
| Pricing.ResolvePromo | internal/billing/service.go:118-138 | A blank code means no promo; else the discount of the row that has the trimmed code, in the case-insensitive sense of its column, and is active and not past its expiry. |
| Pricing.WorthMeans | internal/billing/service.go:118-138 | A code is refused exactly if its row is missing, inactive or past its expiry; else the discount is the percentage of the price to the nearest hundredth, or the fixed amount, or nothing for an unknown type. |
| Pricing.RoundIsNearest | internal/billing/service.go:278 | Rounding errs by at most half a hundredth, and halves go away from zero. |
| Pricing.RoundTwice | internal/billing/service.go:257-267 | Rounding again changes nothing, so a preview shows the discount that an order gets. |
| Pricing.PercentSplitsPrice | internal/billing/service.go:78 | For a percentage from 0 to 100, discount and charge are non-negative and add up to the price. |

## Left out

- VpnService.Platform.Interfere: its body does nothing; only its contract is used, and VpnTrails.OthersAllowed shows what it admits.
- BillingService.Cashier.Interfere: likewise, with BillingService.OthersAllowed.
- Delete withdrawing the current credential after a migration: false of the code, exactly as VpnDeletion.DeletionIsSureIffNeverMigrated says; a run is VpnWitnesses.DeletedButInstalled.
- Deleted being final: false of the code, exactly as VpnProtocol.DeletedUnlessMoved says; a run is VpnWitnesses.DeletedAndRevived.
- Exact client counts in every run: false of the code, exactly as VpnProtocol.StepLoad says; a run is VpnWitnesses.CountsDrift.
- Moving a subscription whenever some server has room: false of the code, which tries only the preferred one; an input is VpnWitnesses.SkippedDespiteRoom.
- Payment status following order status: false of the code, exactly as BillingProtocol.MirroredUnlessSplit says; a run is BillingWitnesses.PaidWithFailedPayment.
- A paid order behind every issued subscription: false of the code, exactly as BillingOutcomes.PaidIffFinished says; runs are BillingWitnesses.IssuedButUnpaid and BillingWitnesses.IssuedAndLeftBehind.
- Every claimed order getting issued and paid: false of the code, exactly as BillingOutcomes.PayableIffWorkable says; runs are BillingWitnesses.IssuedAndLeftBehind and BillingWitnesses.DeletedRenewalIsNeverPaid.
- A linear ledger whatever the times: false of the code, exactly as Ledger.AppendKeepsChain and Ledger.AppendIsNewest say; a run is BillingWitnesses.TiedPaymentsBreakChain, and Ledger.ConcurrentAppendsFork has the concurrent case.
- The timestamps and row ids of the ledger are not part of the hash, so Ledger.TamperEvident says nothing about them.
- The hash function: any function to non-empty texts without the separator; instead of assuming it injective, a collision is named.
- Identifiers in the ledger payload: printed in decimal where the program prints UUIDs.
- Split routing after a migration: MigrateServer always generates full routing.
- IPv6 and IPv4-mapped prefixes: every line is read as IPv4, and an IPv6 line is junk.
- WireGuard's own handling of a duplicate allowed address, and the wg and xray binaries: a node call adds or removes one client of a set.
- The agent's mutex: the file is edited by one caller at a time.
- JSON text: the agent's configuration is a value, and reading it back is not modelled.
- sync.Once: a flag, set by the only caller.
- Object storage, config texts, QR codes, encryption and key generation: a store may fail; everything else about them is left out.
- Devices, labels, the gateway and routing columns of an order, plan limits, migrations log, webhook audit and other audit rows: columns that no decision depends on.
- Floating point: amounts are hundredths and rounding is exact.
- Deleting users, plans, countries or promos: rows are only added, as the program does; plans are not edited.
- The no-op provisioner, which is the default (internal/vpn/provisioner.go:28-60): its adds report success and install nothing, so VpnProtocol.ReachableSafety and the other statements about nodes are about the agent mode.
- Failing database statements: a service method that starts a transaction gets its result. The state machines let an operation stop after any step, so what they prove covers such failures.
- Day intervals across clock changes: a day has 86400 seconds.
- The text of ru_cidrs.txt: the theorems hold for every text.
- HTTP handlers, the bot, web panels, sessions, rate limits, health checks and deployment.
