# Travel marketplace backend: a verified model of its collection rules

This project models the request-handling core of a travel-marketplace backend in Dafny. The backend is an Express/Mongoose service where users book tour packages that vendors publish. Each document collection becomes an in-memory store: a sequence of records whose fields follow the schemas in `models/*.js`. Each handler or helper that reads or writes the store becomes an operation with a contract.

- **Notifications** (`notifications.dfy`, `utils/notificationUtils.js`)
  - A `NotificationCollection` class holds the records.
  - `createNotification` and `sendAdminNotifications` append one record addressed to many targets.
  - `markAsRead` and `markAllAsRead` set the shared read flag in place.
- **Packages** (`packages.dfy`, `routes/vendor.js`)
  - A `PackageCollection` class with package creation.
  - The four per-status listings. Each answers 404 when nothing matches.
  - The activate and deactivate toggles.
- **Upcoming packages** (`upcoming.dfy`, `helpers/packageHelpers.js`)
  - Filter the active packages to a start-date window.
  - Sort them by start date, then page them with skip and limit.
- **Payments** (`payments.dfy`, `helpers/paymentHelpers.js`)
  - Listings by user, by vendor or for everyone, latest first.
  - The lookup by order id.
  - The monthly revenue of a vendor.
  - The searches by date range, whose end bound is widened to the end of its day.
- **Tokens** (`tokens.dfy`, `utils/tokenUtils.js`)
  - The role-dependent payload of the profile token. Signing is a parameter.
- **Accounts** (`accounts.dfy`, `auth.dfy`, `profile.dfy`, `routes/auth.js`, `routes/user.js`)
  - A `UserCollection` class whose invariant keeps user emails unique.
  - Signup, login and profile edit. Hashing, password comparison and signing are parameters.
- **Shared operations** (`seqs.dfy`, `text.dfy`)
  - Document-store primitives, each with its properties proved:
    - `find` with a filter;
    - a stable sort by an integer key;
    - `findOne`;
    - `$sum`.
  - JavaScript's `String.prototype.split` on one character.
  - JavaScript's `String.prototype.trim`, with the ECMAScript white-space and line-terminator set.

Conventions used throughout:

- Timestamps and amounts are integers.
- Record ids are naturals handed out by a counter, so ids increase in insertion order.
- A string field the request leaves out, and a falsy one, is the empty string. The handlers test these with `!x`, which treats both alike.
- Three request fields are an `Option` instead: the signup and login `password` and the two search bounds. For a password, an absent value is not the same as an empty one: `bcrypt.hash` and `bcrypt.compare` throw on an undefined password but accept `""`. For the search bounds, `None` stands for an absent bound, which the helpers refuse.
- A field a stored record may lack is an `Option`.
- Where the source's result depends on something outside the store, that thing is a parameter:
  - the clock (`now`);
  - the time-zone offset;
  - the ObjectId syntax test;
  - the bcrypt hash and compare;
  - the JWT signer.

## Model

| member | source | states |
|---|---|---|
| `Text.SplitCount` | utils/notificationUtils.js:12 | of `Text.Split`, which models `split`: `split(",")` yields one more piece than there are commas |
| `Text.SplitPiecesFree` | utils/notificationUtils.js:12 | of `Text.Split`: no piece of a split contains the separator |
| `Text.JoinSplit` | utils/notificationUtils.js:12 | of `Text.Split`: joining the pieces back with the separator restores the input |
| `Text.SplitJoin` | utils/notificationUtils.js:12 | of `Text.Split`: splitting a join of separator-free pieces gives back those pieces |
| `Text.TrimSpec` | routes/vendor.js:41 | of `Text.Trim`, which models `trim`: `trim` returns the slice left after the leading and trailing white space is removed |
| `Text.TrimEdges` | routes/vendor.js:41 | of `Text.Trim`: a trimmed string neither starts nor ends with white space |
| `Text.TrimIdempotent` | routes/vendor.js:41 | of `Text.Trim`: trimming twice is trimming once |
| `Text.CommaListShape` | utils/notificationUtils.js:12 | of `Text.CommaList`, which models `split(',').map(trim)`: the split-and-trim list has one entry per comma plus one, each the trimmed piece, none containing a comma |
| `Seqs.FilterMembers` | helpers/paymentHelpers.js:7 | of `Seqs.Filter`, which models `find` with a filter: a filtered `find` returns exactly the records that pass |
| `Seqs.FilterMultiset` | helpers/paymentHelpers.js:7 | of `Seqs.Filter`: a filtered `find` keeps each passing record as often as it is stored, and no other |
| `Seqs.SortBySpec` | helpers/paymentHelpers.js:10 | of `Seqs.SortBy`, which models `sort`: `sort` yields an ordered permutation of its input |
| `Seqs.SortByFilter` | helpers/packageHelpers.js:13-15 | of `Seqs.SortBy` and `Seqs.Filter`: filtering then sorting equals sorting then filtering |
| `Seqs.FirstIndex` | helpers/paymentHelpers.js:46 | `findOne` finds the first matching record, and none exactly when no record matches |
| `Seqs.SumAppend` | helpers/paymentHelpers.js:80 | of `Seqs.Sum`, which models `$sum`: `$sum` over two parts is the sum of the parts' sums |
| `Notifications.ParseRequest` | utils/notificationUtils.js:7-12 | an empty title or target string is refused with 'Missing required fields'; otherwise the targets are the trimmed comma-separated pieces, one per comma plus one |
| `Notifications.IdChecks` | utils/notificationUtils.js:14-19 | the validity callback yields a failure reply exactly for the ill-formed ids, and the result is discarded |
| `Notifications.MarkRead` | utils/notificationUtils.js:42-44 | only the record with the id is marked read, every other record is unchanged |
| `Notifications.MarkReadFor` | utils/notificationUtils.js:56-58 | every record addressed to the target is marked read, every other record is unchanged |
| `Notifications.MarkReadIdempotent` | utils/notificationUtils.js:42-44 | marking read twice changes nothing more |
| `Notifications.MarkReadUnknown` | utils/notificationUtils.js:42-46 | marking an unknown id changes nothing |
| `Notifications.MarkReadForIdempotent` | utils/notificationUtils.js:56-58 | marking all read for a target twice changes nothing more |
| `Notifications.SharedReadState` | utils/notificationUtils.js:56-58 | marking one target's notifications read marks them read for their other targets too |
| `Notifications.NotificationCollection.constructor` | models/notifications.js:3-10 | the collection starts empty and valid |
| `Notifications.NotificationCollection.Append` | utils/notificationUtils.js:22-29 | one record with a fresh id and `isRead` false is added |
| `Notifications.NotificationCollection.CreateNotification` | utils/notificationUtils.js:5-36 | missing fields are refused and nothing is stored; the validity loop never decides the reply; an ill-formed target makes the save fail and nothing is stored; otherwise exactly one record holding the parsed targets is added with success |
| `Notifications.NotificationCollection.MarkAsRead` | utils/notificationUtils.js:39-51 | the store becomes `MarkRead` of the old store and the reply is success, whether or not the id exists |
| `Notifications.NotificationCollection.MarkAllAsRead` | utils/notificationUtils.js:54-65 | a target that is an ObjectId makes the store `MarkReadFor` of the old store with success; any other target makes the cast throw, leaving the store unchanged with 'Failed to mark as read' |
| `Notifications.NotificationCollection.SendAdminNotifications` | utils/notificationUtils.js:67-99 | the targets are the configured list split on commas without trimming; a missing title is refused; an ill-formed id makes the save fail; otherwise one record is added |
| `Packages.ParseInclusions` | routes/vendor.js:40-42 | an empty inclusions field gives the empty list; otherwise one trimmed item per comma-separated piece |
| `Packages.NewPackage` | routes/vendor.js:44-60 | a new package has `totalSlots == availableSlots == seats`, status pending and the parsed inclusions |
| `Packages.ListPackages` | routes/vendor.js:72-157 | 404 exactly when the vendor has no package with the status; otherwise the listing is the summaries of exactly those packages, each once, in store order |
| `Packages.ListingSound` | routes/vendor.js:75-81 | every summary in a listing projects a package of that vendor with that status |
| `Packages.ListingComplete` | routes/vendor.js:75-81 | every package of that vendor with that status appears in the listing |
| `Packages.WithStatus` | routes/vendor.js:163-169 | only the package with the id gets the new status, every other package and field is unchanged |
| `Packages.WithStatusIdempotent` | routes/vendor.js:186-192 | repeating a toggle leaves the state unchanged |
| `Packages.WithStatusKeepsIds` | routes/vendor.js:163-169 | a status change keeps ids increasing and below the counter |
| `Packages.ChangedIsListed` | routes/vendor.js:160-203 | after a toggle, the package appears in its vendor's listing for the new status; of the served listings this is the inactive one, after `deactivate-package` (`activate-package` sets a status no listing route serves) |
| `Packages.PackageCollection.constructor` | models/packages.js:3-22 | the collection starts empty and valid |
| `Packages.PackageCollection.CreatePackage` | routes/vendor.js:12-69 | a missing image or required field fails with nothing stored; otherwise exactly one pending package is appended |
| `Packages.PackageCollection.SetStatus` | routes/vendor.js:163-175 | the store becomes `WithStatus` of the old store; the updated package is returned, or none exactly when no package has the id |
| `Packages.PackageCollection.Activate` | routes/vendor.js:160-180 | `activate-package` sets the status active, with 404 for an unknown id |
| `Packages.PackageCollection.Deactivate` | routes/vendor.js:183-203 | `deactivate-package` sets the status inactive, with 404 for an unknown id |
| `Upcoming.Ordered` | helpers/packageHelpers.js:10-15 | the selected packages sorted by start date, a permutation of the selection |
| `Upcoming.Page` | helpers/packageHelpers.js:16-17 | skip then limit: at most `limit` results when the limit is positive, the whole rest when it is zero, nothing past the end |
| `Upcoming.PageSorted` | helpers/packageHelpers.js:15-17 | a page of sorted results is sorted |
| `Upcoming.PageMembers` | helpers/packageHelpers.js:16-17 | every element of a page is one of the results |
| `Upcoming.OrderedMembers` | helpers/packageHelpers.js:10-14 | every selected package is stored, active, starts within the window and belongs to the vendor asked for |
| `Upcoming.UpcomingSpec` | helpers/packageHelpers.js:4-47 | of `Upcoming.Upcoming`, the query both helpers run: a negative skip is an error; otherwise the page is sorted by start date, holds at most `limit` packages, all stored, active, in the window and of the vendor |
| `Upcoming.FirstPageUnlimited` | helpers/packageHelpers.js:16-17 | page 1 with limit 0 returns every selected package |
| `Upcoming.PagesTile` | helpers/packageHelpers.js:16-17 | a page followed by everything after it is everything from the page's start |
| `Upcoming.DeactivatedNotUpcoming` | helpers/packageHelpers.js:10-14 | after `deactivate-package` sets a package inactive, neither upcoming query selects any package with its id |
| `Upcoming.VendorIsFilteredAll` | helpers/packageHelpers.js:27-39 | the vendor's sorted selection, before skip and limit, is the all-vendor sorted selection filtered by vendor, in the same order; pages of the two queries are not related this way |
| `Payments.ListPayments` | helpers/paymentHelpers.js:5-42 | the payments in scope, each as often as stored and no other, in non-increasing date order |
| `Payments.ScopedIsFilteredAll` | helpers/paymentHelpers.js:7-36 | the user and vendor listings are the full listing with the other payments removed |
| `Payments.PaymentDetails` | helpers/paymentHelpers.js:44-62 | the payment with the order id, or none exactly when there is none; with unique order ids it is that payment |
| `Payments.RevenueGroups` | helpers/paymentHelpers.js:69-83 | the aggregate yields no group when nothing matches and one group otherwise |
| `Payments.MonthRevenue` | helpers/paymentHelpers.js:64-92 | the sum of the amounts of the vendor's paid payments dated within the month, 0 when none matches |
| `Payments.RevenueAdditive` | helpers/paymentHelpers.js:69-83 | revenue over a split store is the sum of the parts' revenues |
| `Payments.RevenueOfNewPayment` | helpers/paymentHelpers.js:71-75 | a new payment adds its amount exactly when it is the vendor's, paid and within the month |
| `Payments.EndOfDay` | helpers/paymentHelpers.js:103 | the end bound becomes the last millisecond of its local day, no earlier than the bound and less than a day later |
| `Payments.EndOfDaySameDay` | helpers/paymentHelpers.js:103 | two instants of the same local day widen to the same bound |
| `Payments.SearchByDate` | helpers/paymentHelpers.js:94-169 | a missing bound fails with 'Both startDate and endDate are required.' |
| `Payments.SearchIsWindowOfList` | helpers/paymentHelpers.js:100-110 | a search is the listing of the same scope restricted to the widened date range, in the same order |
| `Payments.SearchOrder` | helpers/paymentHelpers.js:110 | search results are latest first |
| `Payments.SearchContents` | helpers/paymentHelpers.js:105-107 | a search returns every payment in scope within the widened range, as often as stored, and nothing else |
| `Tokens.RoleClaim` | utils/tokenUtils.js:9 | the payload role is the given role, or 'user' when it is absent or empty |
| `Tokens.BuildPayload` | utils/tokenUtils.js:3-14 | a vendor's picture, email and phone come from the logo and the contact block, and `isAppliedForVendor` is left out; for any other role they come from the top-level fields and `isAppliedForVendor` is kept; id and name are always copied |
| `Tokens.PayloadVendorShape` | utils/tokenUtils.js:9-13 | a payload lacks `isAppliedForVendor` exactly when its role is vendor |
| `Tokens.NonVendorAlwaysBuilds` | utils/tokenUtils.js:4-14 | only a vendor payload can fail to build |
| `Tokens.GenerateJwt` | utils/tokenUtils.js:16-31 | the token is the signer's one-day token for the payload; a signing failure is 'Could not generate token' |
| `Accounts.UserCollection.constructor` | models/user.js:3-13 | the user store starts empty and valid |
| `Auth.NewUser` | routes/auth.js:26-34 | the new user holds the given name, email and phone, the hashed password, and `createdAt == updatedAt` |
| `Auth.Signup` | routes/auth.js:14-45 | an email taken by a user or an admin is refused and nothing is stored; a missing password or required field fails with nothing stored; otherwise exactly one user is added and emails stay unique |
| `Auth.SignupTwice` | routes/auth.js:14-45 | when a first signup stores a user, a second signup with the same email is refused with 'User Already exists' and the store keeps exactly the one new user; when the first is refused, so is the second |
| `Auth.AccountsOf` | routes/auth.js:9-12 | the role selects the user or admin collection, and any other role selects none |
| `Auth.Login` | routes/auth.js:47-74 | 'User not found' exactly when no record of the role's collection has the email; for the first record with the email: a missing password on either side is an internal error; with both present, 'Password does not match' exactly when the comparison fails; when it succeeds, a token exactly when signing succeeds, the signer's token for the record's id, the email and the role; an unknown role is an internal error |
| `Auth.SignupThenLogin` | routes/auth.js:14-74 | a freshly signed-up user logs in with the same password |
| `Profile.Edited` | routes/user.js:17-28 | the edit sets name, email, phone and update time, and keeps every other field |
| `Profile.EditUsers` | routes/user.js:17-28 | only the user with the id is edited |
| `Profile.EditProfile` | routes/user.js:8-42 | a missing field gives 400 and an unknown id 404, both with no change; an email held by another user fails with no change; otherwise only that user is edited, emails stay unique, and the reply is 200 with the token built from the updated record with role 'user' exactly when signing succeeds, and 500 otherwise |
| `Profile.EditKeepsWellFormed` | routes/user.js:17-28 | an edit whose email no other user has keeps ids in place and emails unique |
| `Profile.EditUnknownUser` | routes/user.js:30-32 | editing an unknown user changes nothing |
| `Profile.EditTwice` | routes/user.js:17-28 | repeating an edit only moves the update time |

## Left out

- Object storage (the S3 upload), multer and the construction of the image URL are left out. The model takes the stored image URL as given, or `None` when no file was uploaded. In the source, the upload happens before the save, so a failed save leaves an orphaned image.
- ObjectId casting is modelled only for notifications. There, the `isObjectId` parameter decides whether a target list can be saved and whether `markAllAsRead`'s target casts.
- Record and route ids (`markAsRead`, the package toggles, the profile edit) are naturals, so their casts cannot throw in the model.
- `Payments.ListPayments`, `Payments.SearchByDate` and `Payments.MonthRevenue` do not model the cast of a `userId` or `vendorId` that is not an ObjectId. In the source, `new ObjectId(...)` (helpers/paymentHelpers.js:72, :131, :157) and the cast inside `find({ userId })` (:7, :33) throw, and the helper rethrows. The model instead selects the payments whose stored id equals that string, and reports no error.
- Ids are compared as strings throughout, while the source compares cast ObjectIds, whose hex digits are case-insensitive. Two spellings of one id that differ in letter case therefore match in the source and not in the model.
- `Number(...)` and `new Date(...)` conversions of request fields are left out. A form arrives with its numbers and dates already converted, so NaN and invalid dates are not modelled.
- Calendar arithmetic is left out: today, ten days later, and the first and last millisecond of the month. These bounds are inputs. For `setHours`, a fixed time-zone offset stands for local time, with no daylight-saving changes.
- `populate` joins and field projections other than the listing summary are left out. Joins change what a result displays, not which records it holds or their order.
- The order of equal sort keys is left out. MongoDB leaves it unspecified; the model's sort is stable.
- Negative `limit` values are left out: the limit is a natural number.
- Store failures (a lost connection, a thrown driver error) are left out. They map to the generic 500 or failure replies.
- The application's `updatedAt` default on packages and `avgRating` are left out. No modelled operation reads them.
- An undefined `targetIds` (which throws before the try block) is left out, and so is an undefined request body.
- `Notifications.NotificationCollection.SendAdminNotifications` takes the `ADMIN_IDS` setting as a string. In the source, an unset variable makes `split` throw before the title check (utils/notificationUtils.js:69), whatever the title; the model does not represent that case.
- Concurrency between requests is left out: each operation is one sequential step on the store. Two simultaneous signups with one email therefore cannot both pass the duplicate check.
- The booking lifecycle, seat accounting, conversations, messages and package expiry are left out. Only their schemas exist, so there is no behaviour to model.
- models/admin.js is not part of this model. An admin record is reduced to its id, email and password hash.
- Payments listed with an absent `userId` or `vendorId` query value are left out. The scope always names a value.
