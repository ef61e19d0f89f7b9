# What the proxy promises about state that must survive

This project models the parts of an OpenAI-compatible CLI proxy that keep durable or concurrent state, and a
few text routines, and proves what they promise over every run. `dafny verify dfyconfig.toml` checks it.

**Provisioning.** `Disk` is a directory of named trees and a lockfile. Every filesystem call is one step, and a
machine is given the number of steps it still completes. Once they are used up it is dead, and nothing it does
afterwards has an effect, so a postcondition that holds for every number holds at every crash point. Other
processes rename, create and edit at the seams of the protocols; what they do is input. Conservation is part of
what every method keeps: a directory that the engine has once renamed to the name of an item always has a name.
On this stand `SkillInstaller` (first installation, reconciliation), `SkillUpgrade`, `SkillRemoval` and
`LegacyMigration`. The symlinks of `SkillLinks` and the single file of `ConfigPublication` have disks of their own,
with the same idea.
`OwnershipFile` is the validating decoder of the lockfile, on top of `Paths`. `SyncScheduler` is the queue and the
coalescing loop that all of it runs in, and `PromiseChain` shows that it does nothing the chain of promises behind it
would not let happen.

**Gateway and sessions.** `BindingTable` is the table of issued provisioning generations with its two files,
`Generations` and `Hexadecimal` the text and the order of a generation, `SessionManager` the registry of login
attempts with every await as a point where anything else may happen, and `UserProvisioner` the provisioning of OS
accounts.

**Text.** `JsonScanner`, `TomlRender`, `TomlReplacement` and `NdjsonParsers`, over the JavaScript string operations
in `Text`.

Where the code does not do what its comments promise, the model follows the code:

- A retargeted discovery link whose save, unlink and restore all fail leaves the old link in place and a record in
  memory that does not know it, and the save at the end of the same run makes that durable
  (`SkillLinks.Links.RetargetThenSave`).
- A migration that changes the letter case of a key, of a record with discovery links, is dropped when the lockfile
  is read again, on the way forward and on the way back (`OwnershipFile.MigrationSurvivesExactly`,
  `OwnershipFile.RestoreSurvivesExactly`).
- Issued generations are forgotten at a restart when long engine names made the file larger than the loader reads
  (`BindingTable.LongNamesForgetEverything`). A start whose clock is ahead forgets bindings that the file still has;
  if the clock then goes back, and nothing is saved in between, the process refuses what the file would allow
  (`BindingTable.ClockSetBack`; exactly when, `BindingTable.AgreementMeans`).
- A config candidate that another process has already named `config.json` is erased if the run fails before its
  rename, or renames without replacing on POSIX, where the destination is not inspected
  (`ConfigPublication.LinkedTooEarly`; exactly when, `ConfigPublication.Directory.Install`). At start-up on Windows an
  edited `config.json` that still shares its inode with the candidate name is erased
  (`ConfigPublication.EditedConfigErased`; exactly when, `ConfigPublication.Directory.Reconcile`).
- A rename helper that finishes is believed: if another process has put its own file at the candidate's name, that
  file becomes `config.json` and the installation is reported (`ConfigPublication.CandidateTaken`; exactly when,
  `ConfigPublication.Directory.Install`).
- The function that renders the provider blocks cannot replace a block whose address ends it
  (`TomlReplacement.ReplaceableExactly`). The addresses that a login submits are parsed URLs without spaces, so for the
  service this does not happen (`TomlReplacement.SubmittedAddresses`).
- A user record that something else left incomplete, but with ids, is completed with the ids of the system, whatever
  they are (`UserProvisioner.IdsReassigned`); ids this program wrote never change (`UserProvisioner.WrittenIdsStay`).
- A line that parses to `null` makes both line parsers throw, and with it the rest of its chunk is lost
  (`NdjsonParsers.LostAfterThrow`, `NdjsonParsers.NullLosesClaudeLines`, `NdjsonParsers.NullLosesCodexLines`).
- A self-completing login stores its credential even if its session is gone (`SessionManager.Sessions.Settled`).

## Model

| member | source | states |
|---|---|---|
| Disk.Machine.Rename | src/provision/rename-no-replace.ts:434-487 | a rename that moves a directory only onto a free name; no directory loses its last name |
| Disk.Machine.Save | src/provision/state.ts:445-452 | the lockfile is replaced whole or not at all, and the directories are untouched |
| Disk.Machine.Remove | src/provision/installer.ts:931-939 | the one step that can take the last name of a directory away, and of which one; nobody may ask it for one that was ever published under the name of an item |
| Disk.ActsKeep | src/provision/installer.ts:655-667 | whatever renames, creations and edits other processes make, every directory that had a name has one afterwards |
| Disk.RenameKeeps | src/provision/rename-no-replace.ts:434-487 | a no-replace rename keeps the set of named directories exactly, and no two names become one |
| SkillInstaller.PrepareCandidate | src/provision/installer.ts:684-741 | a candidate goes on only as the inode that was made, audited and not empty, and then nothing is lost; undisturbed it goes on exactly when the audit accepts it, and its name is free again when it does not |
| SkillInstaller.DiscardCandidate | src/provision/installer.ts:929-943 | only an unexposed candidate that still is the inode that was made is deleted |
| SkillInstaller.JournalCandidate | src/provision/installer.ts:742-775 | the ownership preclaim is durable, and its marked tree complete, before anything is exposed; a failed save leaves the lockfile as it was and the candidate goes |
| SkillInstaller.ExposeFirst | src/provision/installer.ts:776-826 | under any interference a publication is confirmed only on the audited inode with the audited tree, and nothing is lost; undisturbed the target is absent or exactly that tree at every crash point, and a candidate that fails the check ends at its recovery, or stays if that is taken |
| SkillInstaller.CheckExposure | src/provision/installer.ts:1079-1123 | what was exposed is accepted exactly when inode, marker and whole tree are the audited ones, else it is moved to its preclaimed recovery |
| SkillInstaller.IntactMeansExposed | src/provision/installer.ts:1079-1123 | the published-candidate check, which strips the marker and compares, is the same as the tree being the audited one with its marker |
| SkillInstaller.IsolateRejected | src/provision/installer.ts:1125-1167 | under any interference `true` exactly if the target still names the expected inode when it moves and the recovery is free; an unrelated tree that was caught is put back where it was, and nothing is lost |
| SkillInstaller.ExposeOrWithdraw | src/provision/installer.ts:776-826 | the journal of a candidate that was not published is withdrawn, exactly, if the save holds; a candidate that found its target taken is deleted |
| SkillInstaller.CommitFirst | src/provision/installer.ts:742-826 | from the audited candidate on: refused exactly if the target is taken, the marker name is in use or the save fails, and then nothing has changed; else published, set aside or stranded, as the final check and the recovery name decide |
| SkillInstaller.InstallFirst | src/provision/installer.ts:626-943 | at any crash point and under any interference nothing is lost but the own candidate, and not that either once the engine exposed it, nothing is committed, no other entry of the lockfile changes, and a publication leaves a journal that a reconciliation will promote; undisturbed the outcome and the whole namespace it leaves are fixed by the audits, the saves and which names are taken |
| SkillInstaller.SettleFirstInstall | src/provision/sync.ts:1656-1733 | a journal is promoted only if the target names the recorded inode, with the recorded whole tree if nothing moves after the audit, and dropped, at any crash point, only if the target does not name the candidate it preclaims a recovery for; undisturbed, case by case: a whole candidate is promoted, a changed one is moved to its recovery, if that is taken nothing changes, and otherwise only the journal goes |
| SkillInstaller.SettlingKeepsRecoverable | src/provision/sync.ts:1656-1733 | settling the journal of any crash state leaves one that can be recovered, and an exposed candidate stays exposed and recorded |
| SkillInstaller.RetireMarker | src/provision/sync.ts:1735-1778 | an unchanged marker is unlinked, a changed one becomes an owned file, a missing one is forgotten; no name on disk changes |
| SkillInstaller.FinishMarker | src/provision/sync.ts:1735-1778 | after the second save an installation is all or nothing, and a tree that was promoted still holds what was recorded |
| SkillInstaller.Reconcile | src/provision/sync.ts:1628-1778 | a tree becomes committed only by the recorded inode, under any interference, and with the recorded contents if nothing moves after the audit; a journal is dropped only once its candidate is not at the target; no other entry changes; undisturbed a changed candidate ends at its recovery or, if that is taken, nothing changes, every crash of a reconciliation stays recoverable, and one that finishes leaves all or nothing |
| SkillInstaller.InstallAcrossCrashes | src/provision/sync.ts:1628-1778 | undisturbed, a first installation that dies anywhere and any number of restarts that die anywhere end with no record and nothing exposed, or with the final record, field by field, and exactly the audited tree: the latter whenever the installation was confirmed; no other entry of the lockfile is touched |
| SkillInstaller.InstallAmidRaces | src/provision/sync.ts:1628-1778 | with other processes acting before every life and at every seam, deaths at any step and saves failing at will: a journal never claims an inode but the one that was made, and always its recovery and marker; the record becomes committed only in a life that ends with that inode at the target; an exposed candidate is never lost, and no other entry changes |
| SkillInstaller.RestartAmidRaces | src/provision/sync.ts:1656-1733 | the same of one restart, with the recorded contents at the target if nothing moves after the audit |
| SkillUpgrade.JournalDroppedExactlyWhenWhole | src/provision/sync.ts:1954-1980 | the journal is dropped if and only if one of its two snapshots is wholly on disk, and then that one is kept, the new one first, in a record with nothing else in it |
| SkillUpgrade.HasUntracked | src/provision/installer.ts:1019-1046 | something is untracked exactly if a file, or where every snapshot tracks them a directory, is in none of the owning snapshots |
| SkillUpgrade.HasExactPathsMeans | src/provision/installer.ts:1180-1226 | the set comparison holds exactly if the files are the recorded ones, and the directories the recorded ones and those that a recorded path lies in |
| SkillUpgrade.WholeIsExact | src/provision/installer.ts:1180-1226 | an intact tree of a settled record has nothing untracked in it and exactly the recorded paths |
| SkillUpgrade.MoveAside | src/provision/installer.ts:827-880 | under any interference: no previous tree, a taken staging name, a tree that is refused and put back, or one that is aside, and which of them is decided by what is there after the move; a tree is refused exactly if something in it is untracked or, where asked for, nothing in it is verified |
| SkillUpgrade.Exchange | src/provision/installer.ts:881-912 | under any interference an exchange is reported exactly if the candidate moved and the target is then seen to be the audited inode and tree, and one that is seen to be anything else goes to its recovery |
| SkillUpgrade.SwapTrees | src/provision/installer.ts:827-943 | only a candidate that the engine never exposed can be lost, and none if the swap is reported; undisturbed both renames go through exactly if there is no previous tree or it is fit and its staging name free, and else nothing has moved; a swap is reported exactly if the tree put aside has the recorded paths |
| SkillUpgrade.SwapAndConclude | src/provision/sync.ts:2681-2721 | after the swap the record is the new one exactly if the candidate was published, else what the disk tells; every crash point is safe |
| SkillUpgrade.Upgrade | src/provision/sync.ts:2620-2721 | with no outside edits every crash point shows nothing, the complete old tree, whatever had become of it, or the complete new one, owned by the lockfile; a run that finishes has published the candidate exactly if it was eligible, with the old tree at its staging name, and reports a swap exactly if that also has the recorded paths; under any interference nothing is lost but a candidate the engine never exposed, no other entry changes, and recoveries that exist stay claimed |
| SkillUpgrade.ReplaceTree | src/provision/sync.ts:2681-2721 | from the audited candidate to the last save: owned as before, as after, or as both at every crash point, and no other entry changes; undisturbed, for every tree that was installed, drifted or not, nothing moves if it has something untracked or the journal is not saved, and else the trees are swapped, and the record written, exactly as far as the tree is fit |
| SkillUpgrade.ReconcileSettles | src/provision/sync.ts:1954-1980 | resolving the journal of any crash state is safe, and settles it unless the crash came between the two renames or the tree in place is neither of the two |
| SkillUpgrade.UpgradeAcrossCrashes | src/provision/sync.ts:1954-1980 | undisturbed, over any number of crashing restarts the old tree, whatever had become of it, is never lost, is preclaimed by the lockfile while it is aside, and what is visible is owned; a swap that was reported is in place for good and recorded by the first restart that finishes; no other entry changes |
| SkillUpgrade.UpgradeAmidRaces | src/provision/sync.ts:1954-1980 | with other processes acting at every seam and before every restart, deaths anywhere and saves failing at will: no tree is lost but a candidate never exposed, the item stays owned by a snapshot it had, its new one or both, a restart drops one only for what is wholly at the target, and no other entry changes |
| SkillRemoval.IsolateOwned | src/provision/installer.ts:1255-1337 | a tree is moved aside only on the evidence of a hash-verified file, as the inode that was audited; one caught by mistake is put back where it was; under any interference the outcome is decided by what is there when it moves |
| SkillRemoval.RemoveSkill | src/provision/installer.ts:1339-1368 | at every crash point the installed tree is at its target or at a recovery the lockfile already names, other entries are as they were and recoveries that exist stay claimed; undisturbed it is moved exactly if it is provably owned and its recovery is free, its entry goes unless the move failed, and exactly the claims with a directory stay; nothing is ever deleted |
| SkillRemoval.RestoreRecovery | src/provision/installer.ts:972-1007 | restored exactly when the recorded inode is at one of the two names and the other is free, and never by replacing anything |
| LegacyMigration.RestoreLegacy | src/provision/sync.ts:1889-1931 | going back keeps every crash point safe, and succeeds, with the legacy tree home and its plain record back, exactly when the save does; nothing else changes |
| LegacyMigration.IsolateLegacy | src/provision/sync.ts:2227-2245 | the legacy tree moves only to a recovery that is already on file, exactly when its ownership is verified and the preclaim saved |
| LegacyMigration.SettleMigration | src/provision/sync.ts:1661-1698 | at a restart the journal leads forward if and only if the exposed candidate is intact, its links are published and the save holds, and back if and only if it is not and the save holds; else it stays as it is |
| LegacyMigration.BringHome | src/provision/sync.ts:2099-2119 | an isolated legacy tree that is still the owner comes back before the next attempt |
| LegacyMigration.FinishReplacement | src/provision/sync.ts:1735-1778 | the replacement keeps its ownership while its marker is retired |
| LegacyMigration.Recover | src/provision/sync.ts:2122-2170 | from any crash state, recovery that finishes leaves exactly one of legacy tree and replacement live and owned, the replacement exactly if it was exposed; it may crash and run again, and no other entry, recovery or file changes |
| LegacyMigration.JournalMigration | src/provision/sync.ts:2175-2265 | either the two-way journal is durable, field by field, with the legacy tree aside, or the legacy skill is still the owner of its complete tree, and if it finished everything is where it was; no other entry, recovery or file changes |
| LegacyMigration.CommitJournal | src/provision/sync.ts:2698-2719 | the save that hands ownership over, and touches no other entry; if it fails the legacy tree goes straight back |
| LegacyMigration.RollBack | src/provision/sync.ts:1933-1952 | after refused links the exposed candidate moves to its recovery and the legacy tree comes home, exactly when the save holds, safe at every crash point |
| LegacyMigration.SettleExposed | src/provision/sync.ts:2796-2805 | an exposed replacement is committed, rolled back, or left to its journal, exactly as its links and saves go |
| LegacyMigration.PublishMigration | src/provision/sync.ts:2698-2812 | exposure and settlement keep every crash point safe; they commit if and only if the audit, the links and the save hold, and go back to the legacy tree if and only if the audit or the links are refused and that is saved |
| LegacyMigration.Migrate | src/provision/sync.ts:2620-2788 | the whole migration is safe wherever it dies, and goes through if and only if ownership is verified, the replacement is acceptable, the links are published and the saves hold; where both trees are when it finishes is fixed by the same; nothing is lost but a replacement never exposed; at every crash point every other record is as it was, every other recovery that exists is claimed, and no other name or tree has changed |
| LegacyMigration.SavesUndisturbed | src/provision/sync.ts:2722-2735 | the lockfiles a migration writes keep every other record and every other recovery that exists |
| LegacyMigration.MigrateAcrossCrashes | src/provision/sync.ts:2099-2119 | after any number of crashing recoveries the legacy tree is complete and reachable, the first that finishes leaves exactly one tree live, the replacement if the migration was committed, and nothing else was ever touched |
| SkillLinks.Links.SymlinkAt | src/provision/rename-no-replace.ts:282-320 | what a killed symlink helper may have done, and what the inspection after it can tell |
| SkillLinks.Links.Retain | src/provision/sync.ts:1005-1044 | a link leaves its pathname only if its recorded identity is what was caught; anything else is put back |
| SkillLinks.Links.Discard | src/provision/sync.ts:1066-1074 | only the recorded inode is ever unlinked |
| SkillLinks.Links.RemoveAtIdentity | src/provision/rename-no-replace.ts:323-370 | an anchored removal unlinks nothing but the recorded identity, and reports a removal only if the pathname is free |
| SkillLinks.Links.RecordLink | src/provision/sync.ts:1298-1323 | the identity is durable or the link is taken back; the lockfile answers for the link either way |
| SkillLinks.Links.Publish | src/provision/sync.ts:1288-1325 | at every crash point each link of ours at a discovery pathname is answered for by a matching record or by the intent; when a publication is refused the record is as before |
| SkillLinks.Links.FinishPublication | src/provision/sync.ts:1253-1286 | an interrupted publication is adopted, published or withdrawn without a link being left unanswered for, and nothing is unlinked |
| SkillLinks.Links.Isolate | src/provision/sync.ts:1076-1081 | while other processes rearrange names around every step, the only inode that can be unlinked is the recorded one |
| SkillLinks.Links.RemoveRecorded | src/provision/sync.ts:1327-1339 | the link is unlinked exactly if its pathname still names it, everything else is as it was, and no private name is left |
| SkillLinks.Links.Forget | src/provision/sync.ts:1486-1497 | a link whose pathname is free can be dropped from the record with every other link still answered for |
| SkillLinks.Links.Retarget | src/provision/sync.ts:1448-1476 | the lockfile answers for every link at every crash point, and the record in memory does so unless save, unlink and restore all fail; undisturbed it succeeds exactly if the symlink is made and the two saves hold, the old link is unlinked then, and else back in place unless the new one is live; nothing else that was there is unlinked |
| SkillLinks.Links.PublishOver | src/provision/sync.ts:1448-1476 | the same from the point where the old link is under a private name; no private name is left unless its unlinking and restoring fail |
| SkillLinks.Links.SettleOld | src/provision/sync.ts:1454-1475 | the old link is unlinked if the new one is live and comes back if it is not, and its private name is free |
| SkillLinks.Links.RetargetThenSave | src/provision/sync.ts:2869-2875 | the save at the end of the run keeps the promise if and only if those three did not all fail |
| SkillLinks.Links.Perform | src/provision/sync.ts:1364-1512 | one publication, retargeting or removal keeps the promise on disk, and in memory exactly if it is not a stranded retargeting of a link of ours; a removed link is forgotten once its pathname is free |
| SkillLinks.Links.Run | src/provision/sync.ts:1364-1512 | one sync run of link work, removals and their forgetting included: the promise holds after it unless it lives to a working last save after stranding a link, and if that is a link of ours it does not hold |
| SkillLinks.Links.LinksAcrossCrashes | src/provision/sync.ts:1364-1512 | over any number of runs that die anywhere the promise holds until one of them makes a stranded retargeting durable, and if that is of a link of ours it is broken then |
| ConfigPublication.LinkThenUnlink | src/provision/rename-no-replace.ts:135-140 | what the Windows helper leaves at each point where it can be killed; status zero means that the source name became the destination |
| ConfigPublication.Directory.RenameNoReplace | src/provision/rename-no-replace.ts:434-477 | on Windows, for every way the helper can end but the refusal of a changed directory, which throws and changes nothing, it returns true if and only if the destination names the open candidate, unless another process put its own file at the source; on POSIX if and only if it moved; nothing is replaced |
| ConfigPublication.Directory.RenameReplace | src/provision/rename-no-replace.ts:553-572 | it returns normally if and only if the destination names the open candidate, except exactly when a helper that finishes finds another entry at the candidate name: that one is published, and it returns normally |
| ConfigPublication.Directory.Expose | src/provision/config-installer.ts:470-497 | for all three renames, with what other processes do right before them: success means that the candidate is the published file and was looked at, or that a finished helper published somebody else's entry |
| ConfigPublication.Directory.Reserve | src/provision/config-installer.ts:190-222 | a candidate is a new file under the first free one of four random names, and there is none exactly if all of them are taken |
| ConfigPublication.Directory.Publish | src/provision/config-installer.ts:417-497 | the candidate that has the published name is left to be erased if and only if another process named it so and the run does not look at that name afterwards; success is reported if and only if the candidate is the published file otherwise, or the rename published another entry and was believed; undisturbed it is published exactly if the rename is reached, the name may be taken, and the helper gets far enough; the journal is durable before the candidate is written to |
| ConfigPublication.Directory.Install | src/provision/config-installer.ts:363-520 | only the candidate is ever written to; a published one is erased if and only if another process published it, erasing works, and the run fails before its rename or its rename does not inspect the name; an installation is reported if and only if the candidate is the published file and no such case, or the run was misled into publishing another entry; undisturbed the file is published exactly if a candidate can be made, the steps before the rename succeed, the name may be taken and the helper gets far enough, and no other name changes |
| ConfigPublication.LinkedTooEarly | src/provision/config-installer.ts:417-497 | an input where it happens on POSIX, and happens neither on Windows nor when replacing |
| ConfigPublication.CandidateTaken | src/provision/rename-no-replace.ts:553-572 | an input where the run is misled: the candidate name holds 8, the published one 5, the descriptor 7; with a killed helper it is not |
| ConfigPublication.Directory.Reconcile | src/provision/sync.ts:1637-1655 | the journal of a published and complete candidate is committed exactly if the cleanup helper finishes (on Windows) with the candidate name free, and the save holds; otherwise the candidate is erased exactly if its name still holds it, erasing works and, in an upgrade, the stable file is in place; the erased file is the published one exactly if both names still name it and it was edited |
| ConfigPublication.EditedConfigErased | src/provision/sync.ts:1637-1655 | an input where start-up erases the published file: both names of a helper killed in between, and an edit |
| ConfigPublication.Directory.InstallAcrossCrashes | src/provision/sync.ts:1637-1655 | over deaths anywhere in an installation and in any number of starts, with failing saves: the config is committed and complete, or nothing is published and recorded, or the journal waits; a start that nothing disturbs settles it |
| ConfigPublication.Directory.UpgradeAcrossCrashes | src/provision/sync.ts:862-874 | over deaths anywhere in an upgrade and in any number of starts, with failing saves, the published file is the complete old or the complete new one, the journal resolves to the one that is there, and a start that nothing disturbs resolves it |
| Generations.OrderIsNumeric | src/isolation/worker-proxy.ts:529 | comparing two generations as strings is comparing them as 128-bit numbers |
| Generations.TimestampIsHighBits | src/isolation/worker-proxy.ts:190-192 | the parsed timestamp is the high 48 bits |
| Generations.NextTimestampWins | src/isolation/worker-proxy.ts:530-537 | a generation made for the next timestamp is later in string order, whatever its random tail is |
| Generations.HexOrder | src/isolation/worker-proxy.ts:529 | fixed-width lower-case hexadecimal is ordered as the numbers are |
| BindingTable.Loaded | src/isolation/worker-proxy.ts:101-161 | a start has at most 512 bindings, none above the latest generation, for any file |
| BindingTable.ReloadKeepsTheUnexpired | src/isolation/worker-proxy.ts:101-161 | a restart gives back the unexpired bindings and the latest generation if and only if the file is at most 1 MiB and no unexpired name is over 256 characters |
| BindingTable.LongNamesForgetEverything | src/isolation/worker-proxy.ts:57-58 | 70 bindings with engine names of 15000 characters are saved and then all forgotten, with the latest generation |
| BindingTable.ShortTablesReload | src/isolation/worker-proxy.ts:101-161 | a restart never forgets an unexpired binding of a table whose bindings have names the loader accepts and take, as JSON in UTF-8, at most 2046 bytes each |
| BindingTable.ShortTablesFit | src/isolation/worker-proxy.ts:57-58 | 512 bindings of 2046 bytes each make a file the loader reads |
| BindingTable.Following | src/isolation/worker-proxy.ts:528-538 | the next generation is above the latest issued one, and there is none exactly if the clock did not pass the last timestamp |
| BindingTable.AgreementMeans | src/isolation/worker-proxy.ts:546-571 | memory and file hold the same unexpired bindings at a time if and only if something was saved since the last load, or no binding on file expires after that time but not after the load |
| BindingTable.ClockSetBack | src/isolation/worker-proxy.ts:116-126 | an input where they do not: a binding that expires at 10, loaded at 20, and the clock set back to 5 |
| BindingTable.FullTablePrunesNothing | src/isolation/worker-proxy.ts:546-556 | a table that is still full after dropping what has expired had nothing to drop, so the refusal changes nothing |
| BindingTable.UserWorkerProxy.constructor | src/isolation/worker-proxy.ts:272-284 | a first start holds the unexpired bindings and the later of the two latest generations |
| BindingTable.UserWorkerProxy.Restart | src/isolation/worker-proxy.ts:272-284 | a restart forgets no disclosed generation if the bindings on file are short; memory is what is unexpired of them |
| BindingTable.UserWorkerProxy.SaveIssued | src/isolation/worker-proxy.ts:174-188 | the file lists the whole table, or is as it was |
| BindingTable.UserWorkerProxy.Issue | src/isolation/worker-proxy.ts:522-574 | a granted generation is above every earlier one and on file before it is disclosed; exactly when it is granted, and the table after it; a refusal leaves the table as it was |
| BindingTable.UserWorkerProxy.Grant | src/isolation/worker-proxy.ts:546-573 | granted exactly if there is room among the unexpired and the save works; a full table or a failed save refuses, with the table and, unless the process died, the file as they were |
| BindingTable.UserWorkerProxy.Bind | src/isolation/worker-proxy.ts:576-629 | a session is pinned exactly if the binding is still the one that was issued, the answer names a valid session, not expired and not beyond the binding, and the save works: then that binding has the session and the new expiry, the one it replaces is gone, and the others are as they were; otherwise nothing changed |
| BindingTable.UserWorkerProxy.ReleaseBindings | src/isolation/worker-proxy.ts:655-682 | exactly the bindings of the session, the answer or the request are gone, from memory and file, or from neither; the others are as they were |
| BindingTable.UserWorkerProxy.Relay | src/isolation/worker-proxy.ts:684-726 | a callback is made exactly for a generation whose binding is of that account, engine, session and address and has not expired, not older than the last one, and on file before it |
| BindingTable.UserWorkerProxy.Run | src/isolation/worker-proxy.ts:267-284 | over any run disclosed generations strictly increase and are on file, relayed ones never decrease and never pass the issued ones; every callback carries the account, engine and address its generation was issued for and a session confirmed for it that had not expired, as the events asked for and answered; and memory is the table on file, or what the last load left of it; they agree on a time exactly as AgreementMeans says |
| BindingTable.TracedIssue | src/isolation/worker-proxy.ts:522-574 | a later generation takes nothing from what stems from the earlier ones |
| BindingTable.TracedConfirmation | src/isolation/worker-proxy.ts:576-629 | a rebinding leaves every binding with what its generation was issued for and a session that was confirmed for it |
| BindingTable.WithoutSpares | src/isolation/worker-proxy.ts:655-682 | what a release gives up and what it spares, and that it gives up nothing exactly if nothing is of its kind |
| SessionManager.SupersedingKeeps | src/auth/session-manager.ts:173-192 | after superseding, the engine is free and every pushed-out child was killed |
| SessionManager.ReservedKeeps | src/auth/session-manager.ts:194-196 | a reservation accounts for the child of a start that is still awaited |
| SessionManager.ResolvedKeeps | src/auth/session-manager.ts:202-254 | a start that returns is registered or killed; no pending session is dead if killed starts never succeed |
| SessionManager.ConcludedKeeps | src/auth/session-manager.ts:263-275 | a concluded session frees its engine and stays registered |
| SessionManager.CreatedMeans | src/auth/session-manager.ts:173-200 | a new start reserves its engine; the session and the reservation that held it are gone and their children killed; no other engine and no other session notices |
| SessionManager.ResolvedMeans | src/auth/session-manager.ts:202-254 | a start that comes back is registered as it was asked for, with its engine, flow and generation, exactly if its engine was not taken meanwhile, and else only killed |
| SessionManager.SubmittedMeans | src/auth/session-manager.ts:343-386 | a session still pending is authorized and stays registered, or fails and goes; either way its child is killed and its engine free; another one keeps its status; nothing else of any record changes |
| SessionManager.ConcludedMeans | src/auth/session-manager.ts:262-293 | a self-completing flow that concludes stays registered with the status it earned, and frees its engine |
| SessionManager.DisposedMeans | src/auth/session-manager.ts:116-122 | what dropping a session changes, and that it changes nothing of another one |
| SessionManager.OneChildAnEngine | src/auth/session-manager.ts:86-99 | an engine has at most one child that is neither killed, failed nor concluded |
| SessionManager.Sessions.Dispose | src/auth/session-manager.ts:116-122 | status, registration and index after dropping a session |
| SessionManager.Sessions.Free | src/auth/session-manager.ts:173-182 | the pending session of an engine is pushed out, and its private generation reported |
| SessionManager.Sessions.Unreserve | src/auth/session-manager.ts:183-192 | the reservation of an awaited start is taken away and its child killed |
| SessionManager.Sessions.Create | src/auth/session-manager.ts:137-200 | a start supersedes whatever holds its engine and reserves it before the await |
| SessionManager.Sessions.StartResolved | src/auth/session-manager.ts:202-254 | what a start that came back finds decides between registration and being killed as superseded |
| SessionManager.Sessions.StartRejected | src/auth/session-manager.ts:205-214 | who lost the slot is told so, not why the child died |
| SessionManager.Sessions.SubmitBegun | src/auth/session-manager.ts:305-349 | the adapter is driven exactly for a pending session that takes submissions and has none running, and that session was never driven before |
| SessionManager.Sessions.SubmitReturned | src/auth/session-manager.ts:343-379 | a credential is stored and a session authorized if and only if the adapter succeeded and the session is still registered and pending |
| SessionManager.Sessions.Settled | src/auth/session-manager.ts:262-293 | a self-completing flow concludes only a registered pending session; its credential is stored in any case |
| SessionManager.Sessions.Cancel | src/auth/session-manager.ts:409-418 | cancelling keeps the status a concluded session earned |
| SessionManager.Sessions.Expire | src/auth/session-manager.ts:224-227 | the reaper drops a session that is still registered |
| SessionManager.Sessions.Reset | src/auth/session-manager.ts:427-433 | nothing is registered or reserved, and every child held before was killed |
| SessionManager.Sessions.Run | src/auth/session-manager.ts:86-99 | in every interleaving the index is exact, every child is accounted for, and no adapter is driven twice |
| SyncScheduler.Workspace.Register | src/provision/sync.ts:645-676 | another address starts a new generation, forgets the manifest and asks a loop in flight for one more run |
| SyncScheduler.Workspace.SyncNow | src/provision/sync.ts:2884-2910 | one loop at a time: a second request joins it |
| SyncScheduler.Workspace.Approve | src/provision/sync.ts:2935-2953 | accepted exactly for a name in the manifest fetched for the registration in force |
| SyncScheduler.Workspace.Delete | src/provision/sync.ts:2974-2984 | a deletion is queued and asks a loop in flight for one more run |
| SyncScheduler.Workspace.PerformEdit | src/provision/sync.ts:2954-2970 | if the registration is still in force and its manifest names the item, an approval approves it, revokes it no more and adopts it if asked to; a stale approval changes nothing; a removal takes the item out and revokes it; every other item is as before |
| SyncScheduler.HonoursMore | src/provision/sync.ts:2963-2969 | an edit that takes place leaves every standing approval in the consent |
| SyncScheduler.Workspace.Fetched | src/provision/sync.ts:2355-2359 | a manifest is kept only if its registration is still in force, and it came from the address registered now |
| SyncScheduler.Workspace.Applied | src/provision/sync.ts:2869-2881 | a run succeeds only under its own registration; what it saves is the consent with what it installed approved, and revocations and adoptions only of what is still asked for |
| SyncScheduler.Workspace.Resume | src/provision/sync.ts:2888-2913 | the loop returns only after a run that succeeded, that started under the generation in force with no request outstanding, and that began after every edit asked for had ended |
| SyncScheduler.Workspace.Step | src/provision/sync.ts:311-320 | no step drops an approval except the deletion of that item |
| SyncScheduler.Workspace.Run | src/provision/sync.ts:311-320 | in every interleaving operations begin and end one after the other in the order they were asked for, the manifest in memory is that of the registered address, and an approval that took place is in the consent until its item is removed, and in the consent that every run works on which loads it meanwhile |
| PromiseChain.Operations.Serialize | src/provision/sync.ts:311-320 | each operation is chained to the tail that was there when it was asked for, and counted as pending |
| PromiseChain.Operations.OnlyTheHeadMayStart | src/provision/sync.ts:314 | of all callbacks only that of the first operation not over may run, and only once nothing runs: the chain is the queue |
| PromiseChain.Operations.SomethingMayHappen | src/provision/sync.ts:314-318 | a failed operation does not stop the chain: while one is pending, something runs or may run |
| PromiseChain.Operations.TailMeansAllOver | src/provision/sync.ts:3077-3081 | awaiting the tail, as a shutdown does, is waiting for every operation asked for so far |
| PromiseChain.Operations.Run | src/provision/sync.ts:311-320 | for any order in which callbacks run, operations begin and end one after the other in the order they were asked for, and the pending count never goes below zero |
| PromiseChain.QueueIsTheChain | src/provision/sync.ts:311-320 | a scheduler and a chain with the same requests and the same history have the same queue, and a callback may run exactly at its head |
| PromiseChain.Follow | src/provision/sync.ts:311-320 | whatever the scheduler does in one step, callbacks that may run let the chain do the same |
| PromiseChain.FollowRun | src/provision/sync.ts:311-320 | so no run of the scheduler begins an operation that the promises would not let begin |
| OwnershipFile.SnapshotRoundTrip | src/provision/state.ts:204-256 | a fitting snapshot is decoded as it was encoded |
| OwnershipFile.DecodedSnapshotFits | src/provision/state.ts:204-256 | whatever was decoded fits |
| OwnershipFile.LinksRoundTrip | src/provision/state.ts:258-276 | links with the name of their key come back in order |
| OwnershipFile.RecordRoundTrip | src/provision/state.ts:320-390 | a record that fits its key is loaded as it was saved, up to an empty list of links |
| OwnershipFile.DecodedFits | src/provision/state.ts:320-390 | for arbitrary input a loaded record fits its key and is in normal form |
| OwnershipFile.SurvivesExactly | src/provision/state.ts:320-390 | a record comes back if and only if it fits its key |
| OwnershipFile.ChangesSurvive | src/provision/sync.ts:2582-2609 | every change the engine makes under one key leaves a record that comes back |
| OwnershipFile.RunsSurvive | src/provision/sync.ts:2681-2788 | after any run of such changes the whole map is loaded as it was saved |
| OwnershipFile.MigrationSurvivesExactly | src/provision/sync.ts:2681-2721 | the journal of a migration comes back if and only if the key keeps its letter case or the record has no links: a case change with links is dropped on reload |
| OwnershipFile.RestoreSurvivesExactly | src/provision/sync.ts:1922-1931 | so is the restored legacy record |
| OwnershipFile.JournalsEnd | src/provision/sync.ts:1954-1980 | an upgrade taken back leaves the stable tree, one taken over the pending tree as if completed at once, and a committed first installation without its marker a plain record |
| OwnershipFile.MigrationLeadsBothWays | src/provision/sync.ts:1922-1931 | the journal of a migration leads back to the legacy tree under its own root and forward to the new one, with the links of the legacy record either way |
| OwnershipFile.WritesOneKey | src/provision/sync.ts:2681-2788 | a write ends or changes the record of its own key and no other |
| OwnershipFile.CanonicalKeysRoundTrip | src/provision/state.ts:193-198 | canonical consent keys come back in order |
| OwnershipFile.StateRoundTrip | src/provision/state.ts:392-443 | a whole fitting file is loaded as it was saved |
| OwnershipFile.LoadedFits | src/provision/state.ts:392-443 | whatever the file held, what was loaded is fit to be saved |
| OwnershipFile.LoadingIsIdempotent | src/provision/state.ts:392-443 | saving and loading what was loaded changes nothing, for arbitrary input |
| OwnershipFile.LoadInstalled | src/provision/state.ts:401-406 | the loading loop computes the decoded map, all of whose records fit their keys |
| Paths.NormalizeIsIdempotent | src/provision/state.ts:274 | a normalized path is absolute and is not changed again |
| Paths.NormalizeKeepsBasename | src/provision/state.ts:265-274 | normalizing keeps a last component that is a plain name |
| Paths.LeadingComponents | src/provision/installer.ts:1185-1201 | the directories a path lies in are its leading components, and no others |
| UserProvisioner.RecordedIdsStay | src/isolation/linux-user-provisioner.ts:193-208 | ids in a well-formed record never change and a ready one stays ready, over any run |
| UserProvisioner.WrittenIdsStay | src/isolation/linux-user-provisioner.ts:193-208 | whatever the file held at first, ids that this program wrote never change afterwards |
| UserProvisioner.ForeignIdsMayChange | src/isolation/linux-user-provisioner.ts:123-142 | a uid on file can change if and only if its record is not complete, and such a record is not one this program writes |
| UserProvisioner.IdsReassigned | src/isolation/linux-user-provisioner.ts:123-142 | a record left incomplete with ids 1000 by something else, to which the provisioner gives ids 1001 |
| UserProvisioner.Provisioner.EnsureWorker | src/isolation/linux-user-provisioner.ts:93-103 | one operation a user: later calls join it |
| UserProvisioner.Provisioner.Read | src/isolation/linux-user-provisioner.ts:246-260 | the job at the head of the queue reads the file, or fails its operation |
| UserProvisioner.Provisioner.FinishReserve | src/isolation/linux-user-provisioner.ts:170-191 | a record is found or, exactly when that is possible, added below the limit, under the account name and home of its user and without ids; nothing else changes |
| UserProvisioner.Provisioner.Made | src/isolation/linux-user-provisioner.ts:123-142 | an account that was made is handed on under the same name, home and date |
| UserProvisioner.Provisioner.FinishPersist | src/isolation/linux-user-provisioner.ts:193-208 | a record is completed exactly if its ids are positive and the write works; the check for a change in between never fires |
| UserProvisioner.Provisioner.Checked | src/isolation/linux-user-provisioner.ts:143-151 | a finished account goes on only if its ids are still the recorded ones |
| UserProvisioner.Provisioner.Started | src/isolation/linux-user-provisioner.ts:153-167 | the caller gets exactly the account that is on file |
| UserProvisioner.Provisioner.ProvisionAlone | src/isolation/linux-user-provisioner.ts:106-167 | an undisturbed operation enters a new user exactly if there is room and the name fits, and writes ids exactly if the record is incomplete and in its place and the system reports positive ones |
| UserProvisioner.Provisioner.Run | src/isolation/linux-user-provisioner.ts:93-112 | for any interleaving, failures and restarts: no user is lost, the limit is kept, a record is at most completed once under the same name, home and date, and every record that is made or completed is well formed, so that its ids stay |
| JsonScanner.RunValue | src/adapter/cli-to-openai.ts:139-147 | inside a block a whole JSON value leaves the scanner where the value ends, at the same depth and outside strings |
| JsonScanner.RunContainer | src/adapter/cli-to-openai.ts:139-147 | from the start of any JSON object or array the scanner stops exactly at its end |
| JsonScanner.FindsSurroundedJson | src/adapter/cli-to-openai.ts:129-158 | an object or array in prose is returned exactly, if no bracket precedes it, there is no code fence and the whole is not JSON |
| JsonScanner.FindsFencedJson | src/adapter/cli-to-openai.ts:116-124 | a JSON text in the first code fence, with or without the language tag and with white space around it, is returned exactly, whatever is around the fence, if the whole is not JSON |
| JsonScanner.FencedAnswer | src/adapter/cli-to-openai.ts:116-124 | the answer for a text whose first fences are anywhere: what is between them, without the tag and outer white space, if that parses |
| JsonScanner.ResultIsInputOrParses | src/adapter/cli-to-openai.ts:110-159 | what comes out is the input, or a contiguous piece of it that parses |
| JsonScanner.ScanBlock | src/adapter/cli-to-openai.ts:135-155 | the loop finds the end the scanner defines |
| JsonScanner.ExtractJsonFromText | src/adapter/cli-to-openai.ts:110-159 | whole text, fence, block, or the input, in that order |
| TomlRender.StringsRoundTrip | src/adapter/codex-custom-home.ts:112-118 | reading a rendered value as a TOML basic string gives the value back |
| TomlRender.EscapedContains | src/adapter/codex-custom-home.ts:112-118 | escaping neither makes nor breaks a marker comment |
| TomlRender.ForeignContentIsKept | src/adapter/codex-custom-home.ts:155-160 | content without begin markers is kept, up to newlines around it, between the two blocks |
| TomlRender.OneRootBlock | src/adapter/codex-custom-home.ts:162-167 | the root block is the only one, at the front |
| TomlRender.OneTableBlock | src/adapter/codex-custom-home.ts:167-180 | the table block is the only one, below the root block and the kept text |
| TomlRender.RootSays | src/adapter/codex-custom-home.ts:162-167 | the text of the root block: the provider and the effort |
| TomlRender.TableSays | src/adapter/codex-custom-home.ts:168-178 | the text of the table block: the address, the variable that holds the key, and the protocol |
| TomlRender.FirstBlockGoes | src/adapter/codex-custom-home.ts:91-92 | a removed block goes with one newline, and the search goes on after it |
| TomlReplacement.ReplaceableExactly | src/adapter/codex-custom-home.ts:150-180 | for every address: a rendering is replaced by the next one, with the text around it kept, if and only if in the address as it stands in the file, without the root blocks it contains, each end marker is followed at once by a begin marker |
| TomlReplacement.RenderReplaces | src/adapter/codex-custom-home.ts:150-180 | then rendering over a rendering is rendering over what was there before |
| TomlReplacement.RootsGo | src/adapter/codex-custom-home.ts:155-157 | the removal of the root blocks takes away the root block of the file and the root blocks inside the address, and nothing else |
| TomlReplacement.BlockLeaves | src/adapter/codex-custom-home.ts:91-92 | what the removal leaves of a block whose address contains markers: nothing exactly if each end marker in it is reopened at once |
| TomlReplacement.PlainAddresses | src/adapter/codex-custom-home.ts:150-180 | an address that begins no block is replaceable exactly if it does not end the table block |
| TomlReplacement.SubmittedAddresses | src/auth/adapters/codex-custom-api-key.ts:48-86 | addresses without a space, as all are that a login submits, contain no marker, so their renderings are always replaced |
| NdjsonParsers.ChunkingDoesNotMatter | src/adapter/stream-json-parser.ts:22-35 | however a stream is cut, pushes and a flush handle each line once and in order, if no line throws |
| NdjsonParsers.LostAfterThrow | src/adapter/stream-json-parser.ts:37-56 | a line that throws takes the rest of its chunk with it, and nothing is lost exactly if nothing there calls |
| NdjsonParsers.NullLosesClaudeLines | src/adapter/stream-json-parser.ts:37-56 | the line `null` does that in Claude output: the lines of the same chunk after it never reach the sink |
| NdjsonParsers.NullLosesCodexLines | src/adapter/codex-jsonl-parser.ts:50-70 | and in Codex output, where the line itself does not either |
| NdjsonParsers.StreamJsonParser.Push | src/adapter/stream-json-parser.ts:22-27 | the buffer is exactly the text after the last newline; the complete lines are handled up to the first that throws |
| NdjsonParsers.StreamJsonParser.Flush | src/adapter/stream-json-parser.ts:30-35 | the rest counts as a line |
| NdjsonParsers.StreamJsonParser.Consume | src/adapter/stream-json-parser.ts:22-35 | a whole stream, cut anywhere |
| NdjsonParsers.CodexJsonlParser.Push | src/adapter/codex-jsonl-parser.ts:35-40 | as above, for Codex events |
| NdjsonParsers.CodexJsonlParser.Flush | src/adapter/codex-jsonl-parser.ts:43-48 | the rest counts as a line |
| NdjsonParsers.CodexJsonlParser.Consume | src/adapter/codex-jsonl-parser.ts:35-48 | a whole stream, cut anywhere |
| Text.SplitConcat | src/adapter/stream-json-parser.ts:24-26 | splitting the buffer with the next chunk is splitting the whole |
| Text.SplitSpells | src/adapter/stream-json-parser.ts:24-26 | the complete lines and the rest spell the text |

## Left out

- Hashes are collision free, random ids and inode numbers are fresh and never reused, and the check of an unexposed candidate and its deletion are one step.
- Entries of a skills root are directories; that a target is a symlink or a file, and device numbers beside inode numbers, are not modelled.
- Other processes act at more points than the seams the source exposes, but they do not delete a directory's last name: deletion by others is outside what conservation can promise.
- LegacyMigration: no other process acts here, because the property is about crashes; so the branch for a legacy target that vanished between planning and execution, and the rejection of a candidate that changed after it was audited, are not reached.
- LegacyMigration.SettleMigration: the publication of discovery links is one input, because `SkillLinks` models it; the legacy record is a settled one without a pending upgrade; that a run tries a failed ownership save again at its end is part of whether that save holds.
- SkillUpgrade.Upgrade: discovery links are not part of these records, because `SkillLinks` and `OwnershipFile` model them; the two saves that claim its recoveries are one step, and the last save does not forget claims whose directory is gone, which the next upgrade does.
- SkillLinks.Links.Publish: creating the parent directories of a discovery path, and taking them away again, are not modelled.
- SkillLinks.Links.Retarget: two recorded links that name the same inode under different discovery paths, and targets that are equal only after resolving aliases, are not modelled.
- SkillLinks.Links.Run: removed links are forgotten one by one, where the source replaces the list after the last of them; the record is that of one item.
- ConfigPublication.Directory.Install: the target directory keeps its identity during a rename, file modes are not modelled, and an I/O error in the inspection after a rename counts as a mismatch that does not occur.
- ConfigPublication: managed files other than `config.json`, removal of stale ones, and removal of a whole config are not modelled; they delete recorded names one by one.
- SyncScheduler.Workspace.Applied: saves in the middle of a run are not modelled, only the last one; leaving the loop and clearing the in-flight promise is one step.
- SyncScheduler.Workspace.PerformEdit: a deletion always succeeds here, because what it does on disk is `SkillRemoval`; that requests are refused while shutting down is not modelled.
- BindingTable: a saved binding weighs what its JSON text takes in UTF-8, with times that are whole numbers; a failed save leaves the old file; URL hashes and the allowlist are inputs, and object identity of a binding is equality of its value.
- BindingTable.Loaded: two entries for one generation in a file that no save wrote are decoded as the source does, but the run properties start from files that a save wrote; entries without an expiry, and the workspace pattern, which requests have passed before, are not modelled.
- SessionManager: session ids are numbered by the attempts they come from; the callback that reports superseded generations does not throw; the unknown-engine, unknown-flow and untrusted-caller refusals before a start are not modelled.
- SessionManager.Registry.Live: that no pending session is dead is claimed only if a killed start does not succeed, since the source registers one that does when the newer start is already gone.
- UserProvisioner: identities are fingerprints; two fingerprints with the same first twenty digits would share an account name, as in the source.
- OwnershipFile: JSON text is not parsed here; date, git revision and git path validators are inputs; Windows path rules are not modelled; `RunsSurvive` has the writes under one key, and the two moves between keys are stated on their own.
- JsonScanner: which texts parse is an input, of which `FindsSurroundedJson` needs only that it accepts the JSON in question.
- NdjsonParsers: sinks do not throw; classification is by what a line parses to.
- Strings are sequences of Unicode characters, not of UTF-16 units.
- The native rename binding, git, tar, the archive audit's rules, HTTP, encryption, allowlists, Express routes, the auth adapters and the model registry are not part of this model; they are inputs or only add easy members.
