# Site maintenance-fee tracker, modelled in Dafny

The application tracks monthly maintenance fees for apartment sites. A *site* has *months* (a billing period named like "Ocak 2025") and *blocks*. A block has *people*, and a person has at most one *payment* per month. A payment carries two amounts, each behind a flag:

- "Ödedi": what was paid;
- "Ödeyecek": what will be paid.

The data lives in a Room (SQLite) database with foreign keys, `ON DELETE CASCADE` and a unique (person, month) index. Five selection screens walk down this hierarchy:

- site;
- month;
- block;
- person;
- payment form.

Each screen has a view model that loads its data, observes the store and performs the screen's writes.

The model has three layers:

- **Store.** `Tables`, `Database` and `AppDatabase` hold the five tables. Each is a map from row id to record with an autoincrement counter. The integrity rules are stated as `Db.Valid()`:
  - every row sits under its own id;
  - every foreign key resolves;
  - the (person, month) index holds.

  `AppDatabase.Store` is a class whose fields are the tables. Every write method keeps `Valid()`.
- **DAOs and repositories.** `SiteDao` … `PaymentDao` model every query as a function of the database. Every write is a pure transition that either completes or is refused (`Outcome`). The cascades are written out in `Database`. The repositories add the name checks and the payment status queries.
- **Screens.** `SiteSecimEkran`, `AySecimEkran`, `BlokSecimEkran`, `KisiSecimEkran` and `OdemeEkran` are the view models. Each is a class holding its ui state and, where the source starts a collector, what that collector observes. `OdemeFormu` is the payment form's local state, with the `filterNumbers` filter.

Clocks become a `now` parameter. Integers are unbounded: no id or count in this application comes near 64 bits.

Where the behaviour depends on Kotlin's `Char.isDigit` and `isBlank`, `KotlinText` models them on the BMP ranges:

- decimal digits of every script;
- Unicode whitespace.


## Model

| member | source | states |
|---|---|---|
| Tables.AssignedId | app/src/main/java/com/makak/learnactivityapp/database/entities/Payment.kt:32-33 | An id of 0 asks for a fresh id that no row holds yet; any other id is used as given. |
| Tables.Put | app/src/main/java/com/makak/learnactivityapp/database/entities/Site.kt:7-17 | The table afterwards maps the id to the new row and keeps every other row. The autoincrement counter never decreases. |
| Tables.DeleteWhere | app/src/main/java/com/makak/learnactivityapp/database/entities/Payment.kt:12-23 | Exactly the rows that fail the test survive, each unchanged. The counter is unchanged. |
| Tables.Where | app/src/main/java/com/makak/learnactivityapp/database/dao/Paymentdao.kt:114-115 | A `WHERE` selection holds exactly the table's rows that pass the test. It has one element per matching row id. |
| Tables.FirstWhere | app/src/main/java/com/makak/learnactivityapp/database/dao/Monthdao.kt:20-21 | `LIMIT 1` yields a matching row when one exists. It yields nothing exactly when no row matches. |
| Tables.CountWhere | app/src/main/java/com/makak/learnactivityapp/database/dao/SiteDao.kt:29-30 | `COUNT(*)` equals the number of matching row ids. It is positive iff some row matches. |
| Tables.CountExcludingBounds | app/src/main/java/com/makak/learnactivityapp/database/dao/SiteDao.kt:32-33 | Leaving one id out of a count lowers it by at most one. |
| Tables.Find | app/src/main/java/com/makak/learnactivityapp/ui/screens/aysecimekran/viewmodel/AySecimViewModel.kt:44-45 | Kotlin `find` returns the first list element that passes. It returns null iff none passes. |
| Ordering.InsertSorted | app/src/main/java/com/makak/learnactivityapp/database/dao/SiteDao.kt:14-18 | Inserting into a sorted list yields a sorted list. Its multiset is the old one plus the new element. |
| Ordering.SortBy | app/src/main/java/com/makak/learnactivityapp/database/dao/SiteDao.kt:14-18 | `ORDER BY` gives a permutation of the selected rows, sorted by the key. |
| Ordering.SortByMembers | app/src/main/java/com/makak/learnactivityapp/database/dao/SiteDao.kt:14-18 | Sorting keeps exactly the same elements and the same length. |
| Database.EmptyDb | app/src/main/java/com/makak/learnactivityapp/database/database/AppDatabase.kt:1-34 | A new database has five empty tables and satisfies every integrity rule. |
| Database.DeletePeople | app/src/main/java/com/makak/learnactivityapp/database/entities/Payment.kt:12-23 | Deleting people removes exactly them and, by cascade, exactly their payments. Everything else is kept. |
| Database.DeleteBlocks | app/src/main/java/com/makak/learnactivityapp/database/entities/Person.kt:12-17 | Deleting blocks removes exactly them, the people living in them and those people's payments. Sites and months are kept. |
| Database.DeleteMonths | app/src/main/java/com/makak/learnactivityapp/database/entities/Payment.kt:12-23 | Deleting months removes exactly them and, by cascade, exactly their payments. |
| Database.DeleteSites | app/src/main/java/com/makak/learnactivityapp/database/entities/Month.kt:12-17 | Deleting sites removes them, their months, their blocks, the people of those blocks, and every payment of those months or people. Nothing else is removed. |
| Database.PeopleOfBlocks | app/src/main/java/com/makak/learnactivityapp/database/entities/Person.kt:12-17 | The cascade from blocks reaches exactly the people whose block is deleted. |
| Database.MonthsOfSites | app/src/main/java/com/makak/learnactivityapp/database/entities/Month.kt:12-17 | The cascade from sites reaches exactly the months of the deleted sites. |
| Database.BlocksOfSites | app/src/main/java/com/makak/learnactivityapp/database/entities/Block.kt:12-17 | The cascade from sites reaches exactly the blocks of the deleted sites. |
| Database.DeletePeopleKeepsValid | app/src/main/java/com/makak/learnactivityapp/database/entities/Payment.kt:12-23 | After cascading person deletes, every foreign key still resolves and the (person, month) index still holds. |
| Database.DeleteBlocksKeepsValid | app/src/main/java/com/makak/learnactivityapp/database/entities/Person.kt:12-17 | After cascading block deletes, every foreign key still resolves and the (person, month) index still holds. |
| Database.DeleteMonthsKeepsValid | app/src/main/java/com/makak/learnactivityapp/database/entities/Payment.kt:12-23 | After cascading month deletes, every foreign key still resolves and the (person, month) index still holds. |
| Database.DeleteSitesKeepsValid | app/src/main/java/com/makak/learnactivityapp/database/entities/Month.kt:12-17 | After cascading site deletes, every foreign key still resolves and the (person, month) index still holds. |
| SiteDao.AllSites | app/src/main/java/com/makak/learnactivityapp/database/dao/SiteDao.kt:14-18 | Every site appears exactly once, newest `createdAt` first. |
| SiteDao.SiteCountByName | app/src/main/java/com/makak/learnactivityapp/database/dao/SiteDao.kt:29-30 | The count is the number of sites with exactly that name. It is positive iff such a site exists. |
| SiteDao.SiteCountByNameExcludingId | app/src/main/java/com/makak/learnactivityapp/database/dao/SiteDao.kt:32-33 | The same count over the sites whose id differs from the excluded one. |
| SiteDao.SiteCountExcludingBounds | app/src/main/java/com/makak/learnactivityapp/database/dao/SiteDao.kt:29-33 | The excluding count is the plain count or one less. |
| SiteDao.InsertSite | app/src/main/java/com/makak/learnactivityapp/database/dao/SiteDao.kt:20-21 | The insert fails with a unique violation iff an explicit id is already taken. Otherwise the site is stored under a fresh id, or under its own id, and nothing else changes. |
| SiteDao.UpdateSite | app/src/main/java/com/makak/learnactivityapp/database/dao/SiteDao.kt:23-24 | The row with the same id is replaced. With no such row nothing changes. |
| SiteDao.DeleteSite | app/src/main/java/com/makak/learnactivityapp/database/dao/SiteDao.kt:26-27 | No site with that id remains, and every other site is kept unchanged. |
| SiteDao.InsertSiteKeepsValid | app/src/main/java/com/makak/learnactivityapp/database/dao/SiteDao.kt:20-21 | A successful insert keeps the store valid. |
| SiteDao.InsertSiteCount | app/src/main/java/com/makak/learnactivityapp/database/dao/SiteDao.kt:20-21 | An insert adds exactly one site of its name, however many already exist. The new site, under the id the insert chose, is listed by `getAllSites`. |
| SiteDao.UpdateSiteKeepsValid | app/src/main/java/com/makak/learnactivityapp/database/dao/SiteDao.kt:23-24 | An update keeps the store valid. |
| SiteDao.DeleteSiteCascade | app/src/main/java/com/makak/learnactivityapp/database/entities/Month.kt:12-17 | After a site delete the store is valid. No month or block of that site remains, and every month and block of another site stays. |
| SiteDao.DeleteSiteKeepsOthers | app/src/main/java/com/makak/learnactivityapp/database/entities/Person.kt:12-17 | People in other sites' blocks stay. So do their payments for other sites' months. |
| MonthDao.MonthsBySite | app/src/main/java/com/makak/learnactivityapp/database/dao/Monthdao.kt:14-18 | Each of the site's months appears exactly once, latest (year, month number) first. |
| MonthDao.MonthById | app/src/main/java/com/makak/learnactivityapp/database/dao/Monthdao.kt:20-21 | The month with that id, or null iff there is none. |
| MonthDao.MonthBySiteAndName | app/src/main/java/com/makak/learnactivityapp/database/dao/Monthdao.kt:23-24 | A month of that site with that name, or null iff there is none. |
| MonthDao.MonthCountBySiteAndName | app/src/main/java/com/makak/learnactivityapp/database/dao/Monthdao.kt:35-36 | The number of the site's months with that name. It is positive iff one exists. |
| MonthDao.MonthCountBySiteAndNameExcludingId | app/src/main/java/com/makak/learnactivityapp/database/dao/Monthdao.kt:38-39 | The same count, ignoring the excluded id. |
| MonthDao.MonthCountExcludingBounds | app/src/main/java/com/makak/learnactivityapp/database/dao/Monthdao.kt:35-39 | The excluding count is the plain count or one less. |
| MonthDao.InsertMonth | app/src/main/java/com/makak/learnactivityapp/database/dao/Monthdao.kt:26-27 | The insert fails with a foreign-key violation iff the site is missing. It fails with a unique violation iff an explicit id is taken. Otherwise it stores the month under its id and changes nothing else. |
| MonthDao.UpdateMonth | app/src/main/java/com/makak/learnactivityapp/database/dao/Monthdao.kt:29-30 | The row with the same id is replaced, provided the site exists; a missing site is a foreign-key failure. With no such row nothing changes. |
| MonthDao.DeleteMonth | app/src/main/java/com/makak/learnactivityapp/database/dao/Monthdao.kt:32-33 | The month and, by cascade, its payments are removed. Everything else is kept. |
| MonthDao.InsertMonthKeepsValid | app/src/main/java/com/makak/learnactivityapp/database/dao/Monthdao.kt:26-27 | A successful insert keeps the store valid. |
| MonthDao.InsertMonthThenFind | app/src/main/java/com/makak/learnactivityapp/database/dao/Monthdao.kt:23-27 | A month just inserted is found by its id and listed among the site's months. The site has one more month of that name. |
| MonthDao.UpdateMonthKeepsValid | app/src/main/java/com/makak/learnactivityapp/database/dao/Monthdao.kt:29-30 | A successful update keeps the store valid. |
| MonthDao.DeleteMonthCascade | app/src/main/java/com/makak/learnactivityapp/database/entities/Payment.kt:12-23 | After a month delete the store is valid and no payment of that month remains. |
| BlockDao.BlocksBySite | app/src/main/java/com/makak/learnactivityapp/database/dao/Blockdao.kt:11-12 | Each of the site's blocks appears exactly once, oldest first. |
| BlockDao.BlockBySiteAndName | app/src/main/java/com/makak/learnactivityapp/database/dao/Blockdao.kt:14-15 | A block of that site with that name, or null iff there is none. |
| BlockDao.BlockCountBySiteAndName | app/src/main/java/com/makak/learnactivityapp/database/dao/Blockdao.kt:26-27 | The number of the site's blocks with that name. It is positive iff one exists. |
| BlockDao.BlockCountBySiteAndNameExcludingId | app/src/main/java/com/makak/learnactivityapp/database/dao/Blockdao.kt:29-30 | The same count, ignoring the excluded id. |
| BlockDao.BlockCountExcludingBounds | app/src/main/java/com/makak/learnactivityapp/database/dao/Blockdao.kt:26-30 | The excluding count is the plain count or one less. |
| BlockDao.InsertBlock | app/src/main/java/com/makak/learnactivityapp/database/dao/Blockdao.kt:17-18 | The insert fails on a missing site or a taken explicit id. Otherwise it stores the block and changes nothing else. |
| BlockDao.UpdateBlock | app/src/main/java/com/makak/learnactivityapp/database/dao/Blockdao.kt:20-21 | The row with the same id is replaced, provided the site exists. With no such row nothing changes. |
| BlockDao.DeleteBlock | app/src/main/java/com/makak/learnactivityapp/database/dao/Blockdao.kt:23-24 | The block, its people and their payments are removed. Everything else is kept. |
| BlockDao.InsertBlockKeepsValid | app/src/main/java/com/makak/learnactivityapp/database/dao/Blockdao.kt:17-18 | A successful insert keeps the store valid. |
| BlockDao.InsertBlockThenListed | app/src/main/java/com/makak/learnactivityapp/database/dao/Blockdao.kt:11-18 | A block just inserted is listed among its site's blocks, and nobody lives in it. |
| BlockDao.UpdateBlockKeepsValid | app/src/main/java/com/makak/learnactivityapp/database/dao/Blockdao.kt:20-21 | A successful update keeps the store valid. |
| BlockDao.DeleteBlockCascade | app/src/main/java/com/makak/learnactivityapp/database/entities/Person.kt:12-17 | After a block delete the store is valid. None of its people and none of their payments remain. |
| PersonDao.PeopleByBlock | app/src/main/java/com/makak/learnactivityapp/database/dao/Persondao.kt:11-12 | Each of the block's people appears exactly once, oldest first. |
| PersonDao.PersonById | app/src/main/java/com/makak/learnactivityapp/ui/screens/odemeekran/viewmodel/OdemeViewModel.kt:55 | The person with that id, or null iff there is none. |
| PersonDao.PersonByBlockAndName | app/src/main/java/com/makak/learnactivityapp/database/dao/Persondao.kt:14-15 | A person of that block with that name, or null iff there is none. |
| PersonDao.PersonCountByBlockAndName | app/src/main/java/com/makak/learnactivityapp/database/dao/Persondao.kt:26-27 | The number of the block's people with that name. It is positive iff one exists. |
| PersonDao.PersonCountByBlockAndNameExcludingId | app/src/main/java/com/makak/learnactivityapp/database/dao/Persondao.kt:29-30 | The same count, ignoring the excluded id. |
| PersonDao.PersonCountExcludingBounds | app/src/main/java/com/makak/learnactivityapp/database/dao/Persondao.kt:26-30 | The excluding count is the plain count or one less. |
| PersonDao.InsertPerson | app/src/main/java/com/makak/learnactivityapp/database/dao/Persondao.kt:17-18 | The insert fails on a missing block or a taken explicit id. Otherwise it stores the person and changes nothing else. |
| PersonDao.UpdatePerson | app/src/main/java/com/makak/learnactivityapp/database/dao/Persondao.kt:20-21 | The row with the same id is replaced, provided the block exists. With no such row nothing changes. |
| PersonDao.DeletePerson | app/src/main/java/com/makak/learnactivityapp/database/dao/Persondao.kt:23-24 | The person and their payments are removed. Everything else is kept. |
| PersonDao.InsertPersonKeepsValid | app/src/main/java/com/makak/learnactivityapp/database/dao/Persondao.kt:17-18 | A successful insert keeps the store valid. |
| PersonDao.InsertPersonThenListed | app/src/main/java/com/makak/learnactivityapp/database/dao/Persondao.kt:11-18 | A person just inserted is listed among their block's people, and no payment refers to them. |
| PersonDao.UpdatePersonKeepsValid | app/src/main/java/com/makak/learnactivityapp/database/dao/Persondao.kt:20-21 | A successful update keeps the store valid. |
| PersonDao.DeletePersonCascade | app/src/main/java/com/makak/learnactivityapp/database/entities/Payment.kt:12-23 | After a person delete the store is valid and none of their payments remain. |
| PaymentDao.PaymentByPersonAndMonth | app/src/main/java/com/makak/learnactivityapp/database/dao/Paymentdao.kt:27-40 | The pair's row, or null iff the pair has none. Under the unique index it is the only row of the pair. |
| PaymentDao.SavedCount | app/src/main/java/com/makak/learnactivityapp/database/dao/Paymentdao.kt:47-55 | The count is positive iff some row of the pair has an enabled field with an amount other than '0' and ''. |
| PaymentDao.SavedCountAtMostOne | app/src/main/java/com/makak/learnactivityapp/database/entities/Payment.kt:28 | Under the unique (person, month) index the saved count is 0 or 1. |
| PaymentDao.UnpaidPeople | app/src/main/java/com/makak/learnactivityapp/database/dao/Paymentdao.kt:58-75 | These are exactly the block's people who have no row for the month, or whose row is unpaid (lines 62-73). |
| PaymentDao.UnpaidPeopleCount | app/src/main/java/com/makak/learnactivityapp/database/dao/Paymentdao.kt:58-75 | `COUNT(DISTINCT p.id)` of those people. It is positive iff one exists. |
| PaymentDao.PeopleCount | app/src/main/java/com/makak/learnactivityapp/database/dao/Paymentdao.kt:102-103 | The number of the block's people. It is zero iff the block is empty. |
| PaymentDao.UnpaidAtMostPeople | app/src/main/java/com/makak/learnactivityapp/database/dao/Paymentdao.kt:58-103 | A block's unpaid count never exceeds its people count. |
| PaymentDao.IncompleteBlocksCount | app/src/main/java/com/makak/learnactivityapp/database/dao/Paymentdao.kt:78-99 | It is positive iff some block of the site has an unpaid person. |
| PaymentDao.BlocksWithPeopleCount | app/src/main/java/com/makak/learnactivityapp/database/dao/Paymentdao.kt:106-111 | The number of the site's blocks that have people. It is zero iff no person lives in a block of the site. |
| PaymentDao.PaymentsByMonth | app/src/main/java/com/makak/learnactivityapp/database/dao/Paymentdao.kt:114-115 | Each row of the month appears exactly once. |
| PaymentDao.PaymentsByPerson | app/src/main/java/com/makak/learnactivityapp/database/dao/Paymentdao.kt:118-119 | Each row of the person appears exactly once, newest `createdAt` first. |
| PaymentDao.ReplacePayment | app/src/main/java/com/makak/learnactivityapp/database/dao/Paymentdao.kt:14-15 | REPLACE fails with a foreign-key violation iff the person or the month is missing. Otherwise any row under the same id or the same pair goes, the new row is stored under its id or a fresh one, and every other row stays. |
| PaymentDao.UpdatePayment | app/src/main/java/com/makak/learnactivityapp/database/dao/Paymentdao.kt:17-18 | With no row under the id nothing changes. Another row holding the pair fails with a unique violation, and a missing person or month with a foreign-key violation. Otherwise the row is replaced. |
| PaymentDao.DeletePayment | app/src/main/java/com/makak/learnactivityapp/database/dao/Paymentdao.kt:20-21 | Exactly the row with that id is removed. |
| PaymentDao.DeletePaymentByPersonAndMonth | app/src/main/java/com/makak/learnactivityapp/database/dao/Paymentdao.kt:23-24 | Exactly the rows of the pair are removed. |
| PaymentDao.ReplacePaymentKeepsValid | app/src/main/java/com/makak/learnactivityapp/database/dao/Paymentdao.kt:14-15 | A successful REPLACE keeps the store valid, the unique index included. |
| PaymentDao.PutUnclaimedPairKeepsValid | app/src/main/java/com/makak/learnactivityapp/database/entities/Payment.kt:28 | Adding a row whose person and month exist keeps the store valid, provided no kept row holds the pair. |
| PaymentDao.ReplacePaymentOneRow | app/src/main/java/com/makak/learnactivityapp/database/dao/Paymentdao.kt:14-15 | After a save the pair has exactly one row, and it carries the saved content. |
| PaymentDao.UpdatePaymentKeepsValid | app/src/main/java/com/makak/learnactivityapp/database/dao/Paymentdao.kt:17-18 | A successful update keeps the store valid. |
| PaymentDao.UpdatedRowKeepsValid | app/src/main/java/com/makak/learnactivityapp/database/dao/Paymentdao.kt:17-18 | Replacing a row without taking another row's pair keeps the store valid. |
| PaymentDao.DeletePaymentKeepsValid | app/src/main/java/com/makak/learnactivityapp/database/dao/Paymentdao.kt:20-21 | A delete by id keeps the store valid. |
| PaymentDao.DeleteByPairEffect | app/src/main/java/com/makak/learnactivityapp/database/dao/Paymentdao.kt:23-40 | After a delete by pair the store is valid and the pair has no row. With no row there beforehand, nothing changed. |
| PaymentDao.DeleteByPairNoRow | app/src/main/java/com/makak/learnactivityapp/database/dao/Paymentdao.kt:23-24 | Deleting a pair that has no row leaves the database equal to the old one. |
| PaymentRepository.IsPaymentSaved | app/src/main/java/com/makak/learnactivityapp/database/repository/Paymentrepository.kt:20-22 | True iff the pair has a saved row. |
| PaymentRepository.IsBlockFullyPaid | app/src/main/java/com/makak/learnactivityapp/database/repository/Paymentrepository.kt:25-31 | True for a block without people. Otherwise true iff no person of the block is unpaid for the month. |
| PaymentRepository.IsMonthFullyPaidInSite | app/src/main/java/com/makak/learnactivityapp/database/repository/Paymentrepository.kt:34-40 | True iff every block of the site is fully paid for the month, which includes a site without people. |
| PaymentRepository.NotUnpaidIsSaved | app/src/main/java/com/makak/learnactivityapp/database/dao/Paymentdao.kt:47-75 | A person who is not unpaid has a saved row. |
| PaymentRepository.FullyPaidBlockAllSaved | app/src/main/java/com/makak/learnactivityapp/database/repository/Paymentrepository.kt:20-31 | In a fully paid block every person is saved. |
| PaymentRepository.SavedYetBlockIncomplete | app/src/main/java/com/makak/learnactivityapp/database/dao/Paymentdao.kt:47-75 | The converse fails: a row that is both saved and unpaid makes its person saved while the block is not fully paid. |
| PaymentRepository.SavedAndUnpaidRow | app/src/main/java/com/makak/learnactivityapp/database/dao/Paymentdao.kt:51-52 | Such a row exists: both fields enabled, "150" and "". |
| PaymentRepository.DefaultPaymentUnpaid | app/src/main/java/com/makak/learnactivityapp/database/entities/Payment.kt:41-51 | The entity's defaults (both flags off, amounts "0") are neither saved nor paid. |
| PaymentRepository.RemoveThenUnpaid | app/src/main/java/com/makak/learnactivityapp/database/repository/Paymentrepository.kt:16-18 | After removing a pair's payment the person is not saved, and their block is not fully paid for that month. |
| PaymentRepository.SaveTwice | app/src/main/java/com/makak/learnactivityapp/database/repository/Paymentrepository.kt:8-10 | Saving the same content twice succeeds. The pair then has one row with that content, and a saved status given by the content. |
| PaymentRepository.SaveTwiceWithIdUnchanged | app/src/main/java/com/makak/learnactivityapp/database/repository/Paymentrepository.kt:8-10 | With an explicit id, the second save changes nothing. |
| PaymentRepository.ResaveStoredRow | app/src/main/java/com/makak/learnactivityapp/database/dao/Paymentdao.kt:14-15 | Re-saving a stored row that is alone for its pair gives back the same database. |
| PaymentRepository.SavedOnlyByRow | app/src/main/java/com/makak/learnactivityapp/database/repository/Paymentrepository.kt:20-22 | When a row is its pair's only row, the pair's saved status is that row's. |
| SiteRepository.IsSiteNameExists | app/src/main/java/com/makak/learnactivityapp/database/repository/SiteRepository.kt:24-26 | True iff some site has exactly this name. |
| SiteRepository.IsSiteNameExistsForUpdate | app/src/main/java/com/makak/learnactivityapp/database/repository/SiteRepository.kt:28-30 | True iff some site other than the excluded one has this name. |
| SiteRepository.SiteForUpdateCheck | app/src/main/java/com/makak/learnactivityapp/database/repository/SiteRepository.kt:24-30 | The update check implies the plain one. It passes iff every site of that name is the excluded one. |
| SiteRepository.DuplicateSiteAccepted | app/src/main/java/com/makak/learnactivityapp/database/dao/SiteDao.kt:20-21 | The store itself accepts a second site of an existing name; only the repository check prevents it. |
| MonthRepository.IsMonthNameExists | app/src/main/java/com/makak/learnactivityapp/database/repository/Monthrepository.kt:24-26 | True iff the site has a month with this name. |
| MonthRepository.IsMonthNameExistsForUpdate | app/src/main/java/com/makak/learnactivityapp/database/repository/Monthrepository.kt:28-30 | True iff the site has such a month other than the excluded one. |
| MonthRepository.MonthForUpdateCheck | app/src/main/java/com/makak/learnactivityapp/database/repository/Monthrepository.kt:24-30 | The update check implies the plain one. It passes iff every such month is the excluded one. |
| MonthRepository.DuplicateMonthAccepted | app/src/main/java/com/makak/learnactivityapp/database/dao/Monthdao.kt:26-27 | The store accepts a second month of the same name in a site. |
| BlockRepository.IsBlockNameExists | app/src/main/java/com/makak/learnactivityapp/database/repository/Blockrepository.kt:30-32 | True iff the site has a block with this name. |
| BlockRepository.IsBlockNameExistsForUpdate | app/src/main/java/com/makak/learnactivityapp/database/repository/Blockrepository.kt:34-36 | True iff the site has such a block other than the excluded one. |
| BlockRepository.BlockForUpdateCheck | app/src/main/java/com/makak/learnactivityapp/database/repository/Blockrepository.kt:30-36 | The update check implies the plain one. It passes iff every such block is the excluded one. |
| BlockRepository.DuplicateBlockAccepted | app/src/main/java/com/makak/learnactivityapp/database/dao/Blockdao.kt:17-18 | The store accepts a second block of the same name in a site. |
| PersonRepository.IsPersonNameExists | app/src/main/java/com/makak/learnactivityapp/database/repository/Personrepository.kt:24-26 | True iff the block has a person with this name. |
| PersonRepository.IsPersonNameExistsForUpdate | app/src/main/java/com/makak/learnactivityapp/database/repository/Personrepository.kt:28-30 | True iff the block has such a person other than the excluded one. |
| PersonRepository.PersonForUpdateCheck | app/src/main/java/com/makak/learnactivityapp/database/repository/Personrepository.kt:24-30 | The update check implies the plain one. It passes iff every such person is the excluded one. |
| PersonRepository.DuplicatePersonAccepted | app/src/main/java/com/makak/learnactivityapp/database/dao/Persondao.kt:17-18 | The store accepts a second person of the same name in a block. |
| AppDatabase.Store.constructor | app/src/main/java/com/makak/learnactivityapp/database/database/AppDatabase.kt:1-34 | A new store is empty and valid. |
| AppDatabase.Store.InsertSite | app/src/main/java/com/makak/learnactivityapp/database/dao/SiteDao.kt:20-21 | The store's tables become those of the pure insert. Validity is kept, and a refused write changes nothing. |
| AppDatabase.Store.UpdateSite | app/src/main/java/com/makak/learnactivityapp/database/dao/SiteDao.kt:23-24 | The tables become those of the pure update, and validity is kept. |
| AppDatabase.Store.DeleteSite | app/src/main/java/com/makak/learnactivityapp/database/dao/SiteDao.kt:26-27 | The tables become those of the cascading delete, and validity is kept. |
| AppDatabase.Store.InsertMonth | app/src/main/java/com/makak/learnactivityapp/database/dao/Monthdao.kt:26-27 | The tables become those of the pure insert. Validity is kept, and a refused write changes nothing. |
| AppDatabase.Store.UpdateMonth | app/src/main/java/com/makak/learnactivityapp/database/dao/Monthdao.kt:29-30 | The tables become those of the pure update. Validity is kept, and a refused write changes nothing. |
| AppDatabase.Store.DeleteMonth | app/src/main/java/com/makak/learnactivityapp/database/dao/Monthdao.kt:32-33 | The tables become those of the cascading delete, and validity is kept. |
| AppDatabase.Store.InsertBlock | app/src/main/java/com/makak/learnactivityapp/database/dao/Blockdao.kt:17-18 | The tables become those of the pure insert. Validity is kept, and a refused write changes nothing. |
| AppDatabase.Store.UpdateBlock | app/src/main/java/com/makak/learnactivityapp/database/dao/Blockdao.kt:20-21 | The tables become those of the pure update. Validity is kept, and a refused write changes nothing. |
| AppDatabase.Store.DeleteBlock | app/src/main/java/com/makak/learnactivityapp/database/dao/Blockdao.kt:23-24 | The tables become those of the cascading delete, and validity is kept. |
| AppDatabase.Store.InsertPerson | app/src/main/java/com/makak/learnactivityapp/database/dao/Persondao.kt:17-18 | The tables become those of the pure insert. Validity is kept, and a refused write changes nothing. |
| AppDatabase.Store.UpdatePerson | app/src/main/java/com/makak/learnactivityapp/database/dao/Persondao.kt:20-21 | The tables become those of the pure update. Validity is kept, and a refused write changes nothing. |
| AppDatabase.Store.DeletePerson | app/src/main/java/com/makak/learnactivityapp/database/dao/Persondao.kt:23-24 | The tables become those of the cascading delete, and validity is kept. |
| AppDatabase.Store.ReplacePayment | app/src/main/java/com/makak/learnactivityapp/database/dao/Paymentdao.kt:14-15 | The tables become those of REPLACE. Validity is kept, and a refused write changes nothing. |
| AppDatabase.Store.UpdatePayment | app/src/main/java/com/makak/learnactivityapp/database/dao/Paymentdao.kt:17-18 | The tables become those of the pure update. Validity is kept, and a refused write changes nothing. |
| AppDatabase.Store.DeletePayment | app/src/main/java/com/makak/learnactivityapp/database/dao/Paymentdao.kt:20-21 | The tables become those of the delete, and validity is kept. |
| AppDatabase.Store.DeletePaymentByPersonAndMonth | app/src/main/java/com/makak/learnactivityapp/database/dao/Paymentdao.kt:23-24 | The tables become those of the delete by pair, and validity is kept. |
| KotlinText.AsciiDigits | app/src/main/java/com/makak/learnactivityapp/ui/screens/odemeekran/OdemeEkrani.kt:108-110 | '0'..'9' are digits. Below U+0660, nothing else is. |
| KotlinText.DigitIsNotWhitespace | app/src/main/java/com/makak/learnactivityapp/ui/screens/kisisecimekran/viewmodel/KisiSecimViewModel.kt:122-131 | No digit is whitespace. |
| KotlinText.NotBlankWithDigit | app/src/main/java/com/makak/learnactivityapp/ui/screens/kisisecimekran/viewmodel/KisiSecimViewModel.kt:122-131 | A text holding a digit is not blank. |
| KotlinText.NatToString | app/src/main/java/com/makak/learnactivityapp/ui/screens/aysecimekran/viewmodel/AySecimViewModel.kt:181-188 | A natural number's decimal text is non-empty and all digits. It has two or more digits iff the number is at least 10. |
| KotlinText.IntToString | app/src/main/java/com/makak/learnactivityapp/ui/screens/aysecimekran/viewmodel/AySecimViewModel.kt:181-188 | An integer's text is its natural-number text, with '-' in front when negative. |
| KotlinText.NatToStringRoundTrip | app/src/main/java/com/makak/learnactivityapp/ui/screens/aysecimekran/viewmodel/AySecimViewModel.kt:181-188 | Reading the decimal text back gives the number. |
| KotlinText.NatToStringInjective | app/src/main/java/com/makak/learnactivityapp/ui/screens/aysecimekran/viewmodel/AySecimViewModel.kt:181-188 | Different naturals have different texts. |
| KotlinText.NegativeToStringInjective | app/src/main/java/com/makak/learnactivityapp/ui/screens/aysecimekran/viewmodel/AySecimViewModel.kt:181-188 | Different negative numbers have different texts. |
| KotlinText.SignsDiffer | app/src/main/java/com/makak/learnactivityapp/ui/screens/aysecimekran/viewmodel/AySecimViewModel.kt:181-188 | A negative number and a non-negative one never share a text. |
| KotlinText.IntToStringInjective | app/src/main/java/com/makak/learnactivityapp/ui/screens/aysecimekran/viewmodel/AySecimViewModel.kt:181-188 | Different years give different texts. |
| StatusMaps.StatusMapKeys | app/src/main/java/com/makak/learnactivityapp/ui/screens/aysecimekran/viewmodel/AySecimViewModel.kt:83-91 | The keys of the map the `forEach` fills are exactly the ids of the listed items. Each value is the test applied to its key. |
| StatusMaps.BuildStatusMap | app/src/main/java/com/makak/learnactivityapp/ui/screens/bloksecimekran/viewmodel/BlokSecimViewModel.kt:101-106 | The loop yields the map the `forEach` fills: one entry per listed id. |
| ScreenLookups.SiteByName | app/src/main/java/com/makak/learnactivityapp/ui/screens/aysecimekran/viewmodel/AySecimViewModel.kt:44-45 | `getAllSites().find { it.name == siteName }`: a site of that name, or null iff none. When several share the name, it is the newest. |
| ScreenLookups.FirstSiteIsNewest | app/src/main/java/com/makak/learnactivityapp/database/dao/SiteDao.kt:14-18 | In a newest-first list, the first match has the latest `createdAt` among the matches. |
| ScreenLookups.BlockOfSiteByName | app/src/main/java/com/makak/learnactivityapp/ui/screens/kisisecimekran/viewmodel/KisiSecimViewModel.kt:61-62 | The site's block of that name, or null iff none. When several share the name, it is the oldest. |
| ScreenLookups.FirstBlockIsOldest | app/src/main/java/com/makak/learnactivityapp/database/dao/Blockdao.kt:11-12 | In an oldest-first list, the first match has the earliest `createdAt` among the matches. |
| SiteSecimEkran.SiteViewModel.constructor | app/src/main/java/com/makak/learnactivityapp/ui/screens/sitesecimekran/viewmodel/SiteViewModel.kt:23-25 | Creation leaves the list equal to `getAllSites`, with no error. |
| SiteSecimEkran.SiteViewModel.LoadSites | app/src/main/java/com/makak/learnactivityapp/ui/screens/sitesecimekran/viewmodel/SiteViewModel.kt:27-48 | The list becomes `getAllSites`; loading ends and the error clears. |
| SiteSecimEkran.SiteViewModel.AddSite | app/src/main/java/com/makak/learnactivityapp/ui/screens/sitesecimekran/viewmodel/SiteViewModel.kt:50-65 | A taken name sets "Bu site adı zaten mevcut" and leaves the store alone. Otherwise exactly one site of that name exists afterwards and the list is reloaded. Validity is kept. |
| SiteSecimEkran.SiteViewModel.UpdateSite | app/src/main/java/com/makak/learnactivityapp/ui/screens/sitesecimekran/viewmodel/SiteViewModel.kt:67-82 | A name another site has is refused with the same text. Otherwise the site is stored with the new name and the list is reloaded. |
| SiteSecimEkran.SiteViewModel.DeleteSite | app/src/main/java/com/makak/learnactivityapp/ui/screens/sitesecimekran/viewmodel/SiteViewModel.kt:84-93 | The store becomes the cascading delete and the list is reloaded. |
| SiteSecimEkran.SiteViewModel.ClearError | app/src/main/java/com/makak/learnactivityapp/ui/screens/sitesecimekran/viewmodel/SiteViewModel.kt:95-97 | Only the error message is cleared. |
| SiteSecimEkran.RenameChangesOnlyName | app/src/main/java/com/makak/learnactivityapp/ui/screens/sitesecimekran/viewmodel/SiteViewModel.kt:67-82 | A rename writes the caller's copy with the new name over the stored row and changes nothing else; for the stored row itself (a site picked from the list) only the name changes, so id and createdAt are kept. |
| AySecimEkran.NamesDistinct | app/src/main/java/com/makak/learnactivityapp/ui/screens/aysecimekran/viewmodel/AySecimViewModel.kt:181-188 | The twelve Turkish month names are pairwise different. |
| AySecimEkran.NamesHaveNoSpace | app/src/main/java/com/makak/learnactivityapp/ui/screens/aysecimekran/viewmodel/AySecimViewModel.kt:181-188 | No month name contains a space. |
| AySecimEkran.MonthNameDetermines | app/src/main/java/com/makak/learnactivityapp/ui/screens/aysecimekran/viewmodel/AySecimViewModel.kt:181-188 | `getMonthName` is injective: the name gives back the month number and the year. |
| AySecimEkran.DuplicateNameIsDuplicateMonth | app/src/main/java/com/makak/learnactivityapp/ui/screens/aysecimekran/viewmodel/AySecimViewModel.kt:115-139 | For well-named months, the name check of `addMonth` is a check for the same (month number, year) in the site. |
| AySecimEkran.InsertKeepsWellNamed | app/src/main/java/com/makak/learnactivityapp/ui/screens/aysecimekran/viewmodel/AySecimViewModel.kt:127-133 | Inserting a month named by `getMonthName` keeps every month well named. |
| AySecimEkran.UpdateKeepsWellNamed | app/src/main/java/com/makak/learnactivityapp/ui/screens/aysecimekran/viewmodel/AySecimViewModel.kt:153-158 | Updating a month to its `getMonthName` name keeps every month well named. |
| AySecimEkran.RemovedMonthsKeepWellNamed | app/src/main/java/com/makak/learnactivityapp/ui/screens/aysecimekran/viewmodel/AySecimViewModel.kt:166-175 | Deleting months keeps the rest well named. |
| AySecimEkran.MonthsStatusMeaning | app/src/main/java/com/makak/learnactivityapp/ui/screens/aysecimekran/viewmodel/AySecimViewModel.kt:78-113 | The listed months are exactly the site's. The status map has exactly their ids, each mapped to whether every block of the site is fully paid for that month. |
| AySecimEkran.AySecimViewModel.constructor | app/src/main/java/com/makak/learnactivityapp/ui/screens/aysecimekran/viewmodel/AySecimViewModel.kt:36-38 | Creation ends as `loadInitialData` does. |
| AySecimEkran.AySecimViewModel.LoadInitialData | app/src/main/java/com/makak/learnactivityapp/ui/screens/aysecimekran/viewmodel/AySecimViewModel.kt:40-75 | A missing site sets "Site bulunamadı". Otherwise the site is kept and its months start being observed. |
| AySecimEkran.AySecimViewModel.ObserveMonthsAndPayments | app/src/main/java/com/makak/learnactivityapp/ui/screens/aysecimekran/viewmodel/AySecimViewModel.kt:78-113 | The collector follows the site, and the state is its settled emission. |
| AySecimEkran.AySecimViewModel.Emit | app/src/main/java/com/makak/learnactivityapp/ui/screens/aysecimekran/viewmodel/AySecimViewModel.kt:78-113 | An emission re-lists the observed site's months and recomputes their status. |
| AySecimEkran.AySecimViewModel.AddMonth | app/src/main/java/com/makak/learnactivityapp/ui/screens/aysecimekran/viewmodel/AySecimViewModel.kt:115-139 | With no site nothing happens. A number outside 1..12 or a refused insert sets the add error. A taken name sets "Bu ay zaten mevcut". Otherwise the month is inserted and the collector re-emits. Validity and well-naming are kept. |
| AySecimEkran.AySecimViewModel.UpdateMonth | app/src/main/java/com/makak/learnactivityapp/ui/screens/aysecimekran/viewmodel/AySecimViewModel.kt:141-164 | The same as adding a month, with the for-update name check and the update-failed text. Id, site and creation time are kept. |
| AySecimEkran.AySecimViewModel.DeleteMonth | app/src/main/java/com/makak/learnactivityapp/ui/screens/aysecimekran/viewmodel/AySecimViewModel.kt:166-175 | The store becomes the cascading month delete, and the collector re-emits. |
| AySecimEkran.AySecimViewModel.ClearError | app/src/main/java/com/makak/learnactivityapp/ui/screens/aysecimekran/viewmodel/AySecimViewModel.kt:177-179 | Only the error message is cleared. |
| BlokSecimEkran.BlocksStatusMeaning | app/src/main/java/com/makak/learnactivityapp/ui/screens/bloksecimekran/viewmodel/BlokSecimViewModel.kt:94-119 | The listed blocks are exactly the site's. The status map has exactly their ids, each mapped to whether none of that block's people is unpaid for the month. |
| BlokSecimEkran.AddedBlockShownPaid | app/src/main/java/com/makak/learnactivityapp/ui/screens/bloksecimekran/viewmodel/BlokSecimViewModel.kt:121-141 | A block just added is listed at the next emission, marked fully paid. |
| BlokSecimEkran.BlokSecimViewModel.constructor | app/src/main/java/com/makak/learnactivityapp/ui/screens/bloksecimekran/viewmodel/BlokSecimViewModel.kt:40-42 | Creation ends as `loadInitialData` does. |
| BlokSecimEkran.BlokSecimViewModel.LoadInitialData | app/src/main/java/com/makak/learnactivityapp/ui/screens/bloksecimekran/viewmodel/BlokSecimViewModel.kt:44-91 | A missing site or month sets its not-found text. Otherwise the site's blocks and the month's payments start being observed. |
| BlokSecimEkran.BlokSecimViewModel.ObserveBlocksAndPayments | app/src/main/java/com/makak/learnactivityapp/ui/screens/bloksecimekran/viewmodel/BlokSecimViewModel.kt:94-119 | The collector follows the (site, month) pair, and the state is its settled emission. |
| BlokSecimEkran.BlokSecimViewModel.Emit | app/src/main/java/com/makak/learnactivityapp/ui/screens/bloksecimekran/viewmodel/BlokSecimViewModel.kt:94-119 | An emission re-lists the blocks and recomputes their status. |
| BlokSecimEkran.BlokSecimViewModel.AddBlock | app/src/main/java/com/makak/learnactivityapp/ui/screens/bloksecimekran/viewmodel/BlokSecimViewModel.kt:121-141 | With no site nothing happens. A taken name sets "Bu blok adı zaten mevcut", and a refused insert sets the add error. Otherwise the block is inserted and the collector re-emits. Validity is kept. |
| BlokSecimEkran.BlokSecimViewModel.ClearError | app/src/main/java/com/makak/learnactivityapp/ui/screens/bloksecimekran/viewmodel/BlokSecimViewModel.kt:143-145 | Only the error message is cleared. |
| KisiSecimEkran.HasShownPayment | app/src/main/java/com/makak/learnactivityapp/ui/screens/kisisecimekran/viewmodel/KisiSecimViewModel.kt:124-127 | `payments.any` holds iff some element is a row of the person with an enabled, shown amount. |
| KisiSecimEkran.ShownIsSaved | app/src/main/java/com/makak/learnactivityapp/ui/screens/kisisecimekran/viewmodel/KisiSecimViewModel.kt:124-127 | A row the screen shows as paid is a saved row for the SQL. |
| KisiSecimEkran.BlankAmountSavedNotShown | app/src/main/java/com/makak/learnactivityapp/ui/screens/kisisecimekran/viewmodel/KisiSecimViewModel.kt:124-127 | The converse fails: an enabled amount of one space is saved, yet blank to the screen. |
| KisiSecimEkran.ShownTestMeaning | app/src/main/java/com/makak/learnactivityapp/ui/screens/kisisecimekran/viewmodel/KisiSecimViewModel.kt:122-131 | The `any` over the month's payments decides whether the person is shown paid. A person shown paid is saved. |
| KisiSecimEkran.PeopleStatusMeaning | app/src/main/java/com/makak/learnactivityapp/ui/screens/kisisecimekran/viewmodel/KisiSecimViewModel.kt:114-143 | The listed people are exactly the block's. The status map has exactly their ids, each marked iff a row of the month shows an amount for them. |
| KisiSecimEkran.AddedPersonShownUnpaid | app/src/main/java/com/makak/learnactivityapp/ui/screens/kisisecimekran/viewmodel/KisiSecimViewModel.kt:145-165 | A person just added is listed at the next emission, unmarked. |
| KisiSecimEkran.KisiSecimViewModel.constructor | app/src/main/java/com/makak/learnactivityapp/ui/screens/kisisecimekran/viewmodel/KisiSecimViewModel.kt:46-49 | Creation ends as `loadInitialData` does. |
| KisiSecimEkran.KisiSecimViewModel.LoadInitialData | app/src/main/java/com/makak/learnactivityapp/ui/screens/kisisecimekran/viewmodel/KisiSecimViewModel.kt:51-111 | A missing site, month or block sets its not-found text. Otherwise the block's people and the month's payments start being observed. |
| KisiSecimEkran.KisiSecimViewModel.ObservePeopleAndPayments | app/src/main/java/com/makak/learnactivityapp/ui/screens/kisisecimekran/viewmodel/KisiSecimViewModel.kt:114-143 | The collector follows the (block, month) pair, and the state is its settled emission. |
| KisiSecimEkran.KisiSecimViewModel.Emit | app/src/main/java/com/makak/learnactivityapp/ui/screens/kisisecimekran/viewmodel/KisiSecimViewModel.kt:114-143 | An emission re-lists the people and recomputes their status. |
| KisiSecimEkran.KisiSecimViewModel.AddPerson | app/src/main/java/com/makak/learnactivityapp/ui/screens/kisisecimekran/viewmodel/KisiSecimViewModel.kt:145-165 | With no block nothing happens. A taken name is refused, and a refused insert sets the add error. Otherwise the person is inserted and the collector re-emits. |
| KisiSecimEkran.KisiSecimViewModel.UpdatePerson | app/src/main/java/com/makak/learnactivityapp/ui/screens/kisisecimekran/viewmodel/KisiSecimViewModel.kt:167-184 | With no block nothing happens. A name another person of the block has is refused. Otherwise the person is stored renamed and the collector re-emits. |
| KisiSecimEkran.KisiSecimViewModel.DeletePerson | app/src/main/java/com/makak/learnactivityapp/ui/screens/kisisecimekran/viewmodel/KisiSecimViewModel.kt:186-195 | The store becomes the cascading person delete, and the collector re-emits. |
| KisiSecimEkran.KisiSecimViewModel.ClearError | app/src/main/java/com/makak/learnactivityapp/ui/screens/kisisecimekran/viewmodel/KisiSecimViewModel.kt:197-199 | Only the error message is cleared. |
| OdemeEkran.NewPayment | app/src/main/java/com/makak/learnactivityapp/ui/screens/odemeekran/viewmodel/OdemeViewModel.kt:118-127 | The built payment keeps the current id (0 without one) and belongs to the pair. A disabled field holds "0". It is saved iff an enabled field holds an amount, and unpaid under the SQL's unpaid test. |
| OdemeEkran.DisabledAmountIgnored | app/src/main/java/com/makak/learnactivityapp/ui/screens/odemeekran/viewmodel/OdemeViewModel.kt:122-123 | Text typed into a disabled field never reaches the store. |
| OdemeEkran.BothOffStoresZeros | app/src/main/java/com/makak/learnactivityapp/ui/screens/odemeekran/viewmodel/OdemeViewModel.kt:122-123 | With both flags off the payment holds "0" twice. It is unsaved and unpaid. |
| OdemeEkran.SavedPaymentStored | app/src/main/java/com/makak/learnactivityapp/ui/screens/odemeekran/viewmodel/OdemeViewModel.kt:107-137 | After a save the pair's only row is the built payment under the store's id. The screen's copy differs from it only in the id, and the saved status is the content's. |
| OdemeEkran.OdemeViewModel.constructor | app/src/main/java/com/makak/learnactivityapp/ui/screens/odemeekran/viewmodel/OdemeViewModel.kt:40-42 | Creation ends as `loadData` does. |
| OdemeEkran.OdemeViewModel.LoadData | app/src/main/java/com/makak/learnactivityapp/ui/screens/odemeekran/viewmodel/OdemeViewModel.kt:44-105 | A missing site, month or person sets its not-found text. Otherwise the state holds all three and the pair's payment. |
| OdemeEkran.OdemeViewModel.SavePayment | app/src/main/java/com/makak/learnactivityapp/ui/screens/odemeekran/viewmodel/OdemeViewModel.kt:107-137 | Without a person and a month nothing happens. A refused REPLACE sets the error text. Otherwise the store holds the built payment, which becomes the current one. |
| OdemeEkran.OdemeViewModel.ResetPayment | app/src/main/java/com/makak/learnactivityapp/ui/screens/odemeekran/viewmodel/OdemeViewModel.kt:139-153 | Without a person and a month nothing happens. Otherwise the pair's rows are deleted and the current payment is cleared. |
| OdemeEkran.OdemeViewModel.ClearError | app/src/main/java/com/makak/learnactivityapp/ui/screens/odemeekran/viewmodel/OdemeViewModel.kt:155-157 | Only the error message is cleared. |
| OdemeFormu.FilterNumbers | app/src/main/java/com/makak/learnactivityapp/ui/screens/odemeekran/OdemeEkrani.kt:108-110 | The output holds only digits, '.' and ',', and is no longer than the input. |
| OdemeFormu.FilterConcat | app/src/main/java/com/makak/learnactivityapp/ui/screens/odemeekran/OdemeEkrani.kt:108-110 | Filtering distributes over concatenation. |
| OdemeFormu.FilterKeepsAllowedText | app/src/main/java/com/makak/learnactivityapp/ui/screens/odemeekran/OdemeEkrani.kt:108-110 | Text of allowed characters passes unchanged. |
| OdemeFormu.FilterIdempotent | app/src/main/java/com/makak/learnactivityapp/ui/screens/odemeekran/OdemeEkrani.kt:108-110 | Filtering twice equals filtering once. |
| OdemeFormu.FilterIsSubsequence | app/src/main/java/com/makak/learnactivityapp/ui/screens/odemeekran/OdemeEkrani.kt:108-110 | The filter only deletes characters, keeping the order of the rest. |
| OdemeFormu.FilterCounts | app/src/main/java/com/makak/learnactivityapp/ui/screens/odemeekran/OdemeEkrani.kt:108-110 | Each allowed character is kept as often as it occurs, and no other character is kept. |
| OdemeFormu.ArabicIndicDigitKept | app/src/main/java/com/makak/learnactivityapp/ui/screens/odemeekran/OdemeEkrani.kt:108-110 | A digit of another script is kept, as `isDigit` accepts it. |
| OdemeFormu.PaymentForm.constructor | app/src/main/java/com/makak/learnactivityapp/ui/screens/odemeekran/OdemeEkrani.kt:94-97 | The fields start from the existing payment, or empty with both flags off. |
| OdemeFormu.PaymentForm.Resync | app/src/main/java/com/makak/learnactivityapp/ui/screens/odemeekran/OdemeEkrani.kt:100-105 | A changed payment resets every field to it. |
| OdemeFormu.PaymentForm.EditPaid | app/src/main/java/com/makak/learnactivityapp/ui/screens/odemeekran/OdemeEkrani.kt:213-217 | The paid field becomes the filtered text; nothing else changes. |
| OdemeFormu.PaymentForm.EditWillPay | app/src/main/java/com/makak/learnactivityapp/ui/screens/odemeekran/OdemeEkrani.kt:285-289 | The will-pay field becomes the filtered text; nothing else changes. |
| OdemeFormu.PaymentForm.TogglePaid | app/src/main/java/com/makak/learnactivityapp/ui/screens/odemeekran/OdemeEkrani.kt:192-195 | The paid flag flips; the amounts stay as typed. |
| OdemeFormu.PaymentForm.ToggleWillPay | app/src/main/java/com/makak/learnactivityapp/ui/screens/odemeekran/OdemeEkrani.kt:264-267 | The will-pay flag flips; the amounts stay as typed. |
| OdemeFormu.PaymentForm.Reset | app/src/main/java/com/makak/learnactivityapp/ui/screens/odemeekran/OdemeEkrani.kt:157-166 | Both amounts are emptied and both flags turned off. The form then shows no payment and cannot save. |
| OdemeFormu.PaymentForm.SaveEnabled | app/src/main/java/com/makak/learnactivityapp/ui/screens/odemeekran/OdemeEkrani.kt:339 | "Kaydet" is enabled iff either flag is on. |
| OdemeFormu.NewFormBlank | app/src/main/java/com/makak/learnactivityapp/ui/screens/odemeekran/OdemeEkrani.kt:94-97 | A form opened on no payment offers no reset, has empty amounts, and cannot save. |

## Left out

- Coroutines, `StateFlow` and `combine`/`collect`: an emission is modelled as `Emit()`, run after the screen's own writes, and the combined flow settles on it. Interleavings with other writers are not modelled. Neither are the intermediate `isLoading = true` states a collector shows.
- `AySecimEkran.AySecimViewModel.LoadInitialData`: the nested launches of `loadInitialData` and `observeMonthsAndPayments` can briefly show an empty status map before the computed one. Only the settled state is modelled. Each months emission also launches per-month collectors that are never cancelled, so a stale collector can re-emit an outdated months list when payments change; that is not modelled either.
- The catch blocks whose `try` can only fail through exceptions the model does not have (I/O errors, a closed database), and their texts:
  - "Veriler yüklenirken hata oluştu";
  - "Site listesi yüklenirken hata oluştu";
  - "Site eklenirken/güncellenirken/silinirken hata oluştu";
  - "Ay silinirken hata oluştu";
  - "Kişi silinirken hata oluştu";
  - "Ödeme silinirken hata oluştu".

  Deletes never fail in the model, and a site insert with id 0 cannot be refused.
- `AppDatabase.ExceptionMessage`: the `e.message` of SQLite's constraint exceptions is approximated by a fixed text per kind.
- The clock: `createdAt` and `updatedAt` come from two reads of `System.currentTimeMillis()` in the source. The model takes one `now` for both.
- SQLite collation and affinity: text is compared as exact code-unit sequences, and the `'0'`/`''` amount tests are exact string equality.
- `PaymentDao.IncompleteBlocksCount`: the query groups by block, so it returns one group's count, or 0 with no group. Only "zero or positive" is modelled, which is all its one caller uses.
- The row order of queries without `ORDER BY`, and ties under an `ORDER BY`: the model uses row-id order, one of the orders SQLite may produce.
- Some queries the view models call are not declared in every layer of the repository and DAO files modelled here. `observeMonthsBySiteId`, `observePaymentsByMonth` and `getMonthById` are declared in the DAOs but missing from the repositories. `observeBlocksBySiteId` is declared in the repository, but the DAO method it calls is missing. `observePeopleByBlockId` and `getPersonById` are missing from both layers. Each is modelled as the DAO query of the same meaning: `MonthDao.MonthsBySite`, `PaymentDao.PaymentsByMonth`, `MonthDao.MonthById`, `BlockDao.BlocksBySite`, `PersonDao.PeopleByBlock` and `PersonDao.PersonById`.
- `OdemeFormu.PaymentForm.EditPaid` and `EditWillPay` accept an edit whatever the flag: the disabled text field cannot deliver one, and that is not made a precondition.
- The older screens (Screen1–3, the second `ödemeekran` package), dependency injection, database construction, navigation and the Compose UI are not part of this model. So are the dialogs' own input checks, beyond the month number the view model indexes with.
- `AySecimEkran.AySecimViewModel.UpdateMonth`: the edit dialog's warning text is not part of this model.
