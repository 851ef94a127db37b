# Hostel dashboard: resident reconciliation and bed availability

This project models the two pieces of client-side data logic in the hostel
administration dashboard. The fetched collections are treated as inputs.

* **Resident reconciliation** (`residents-data.jsx`). Allotment documents
  are split by `status` into live and left residents. Each allotment is
  joined with the first booking whose document id equals the second
  `-`-piece of the allotment's `name`. It is also joined with the first
  rent-details document whose `idNo` has the same second piece. The three
  field sets are merged: booking fields first, then allotment fields, then
  rent-details fields, so later sources win on a shared key. The merged
  lists are rebuilt only when bookings, the residents subset and rent
  details are all non-empty. The residents who left owing money are those
  whose `deposit + monthlyRent + miscellaneous - (paidAmount + advanceDeposit)`
  is strictly positive.
* **Bed availability** (`availability-table.jsx`, `applyFilters`). An
  allotment occupies its bed when its window contains the query start
  (`startDate <= start <= dueDate`, both ends included). The query end is
  never read. The occupied key of an allotment is its `bedNo` pieces from
  the third on, rejoined with `-`. The static floor/room/bed inventory is
  walked, and a bed is dropped when `roomNo-<second piece of the bed>` is
  an occupied key.

Modules:

* `Wrappers` (`wrappers.dfy`): `Option`. `None` stands for JavaScript's
  `undefined`, and for NaN after a numeric coercion or date parse.
* `Js` (`js.dfy`): JavaScript's `split("-")`, `join("-")`, `slice(k)`,
  template interpolation of a possibly-undefined value, and `Number(...)`.
  Their round trips are proved here: split then join, join then split, and
  print then parse of integers (`Number(String(n)) == n`). `Interpolate`,
  `ToNumber`, `Plus`, `Minus` and, in `Residents`, `Field` and `Spread` are
  definitions of the language's own behaviour. What they mean for the
  components is stated where they are used: `BedKey`, `Receivable`,
  `OwesIff` and `MergeRecord`.
* `Lists` (`lists.dfy`): `filter` and `find`, an order-preserving sublist
  predicate, and the filter lemmas both components use.
* `Residents` (`residents.dfy`): documents as `map<string, Value>` records.
  It holds the status partition, the three-way join, the arrears filter,
  and the class `ResidentsData`. The class's fields are the page's derived
  lists and each method is one of the page's effects.
* `Availability` (`availability.dfy`): allotments with `Option<int>` day
  numbers, the inventory datatypes, the occupancy filter, and the class
  `AvailabilityTable` holding `allotmentData`, `filteredBeds` and `loading`.

The occupied key is taken as the code computes it: the `bedNo` pieces from
index 2 on. It is not "the `bedNo` without its floor". So an allotment hides
an inventory bed `room-x` (separator-free `room` and `x`) exactly when its
`bedNo` has four pieces `floor-y-room-x`, with the inventory's bed name as
the last two.
A `bedNo` of three pieces or fewer, such as `1-101-A`, has a key without a
`-` (here `A`), while every bed key contains one, so it hides no bed at all.
Both cases are proved. For the first, `CoveredBedIsHidden` and
`RoomScenario` prove the "if" and `HiddenOnlyByFourParts` the "only if".
For the second, `ShortBedNoHidesNothing` proves it in general, with
`ThreePartBedNoHidesNothing` and `RoomScenarioThreeParts` as examples.
Which format the stored data uses is not visible in the code, so the model
follows the code as written.

Three consequences of the code as written:

* The occupied key is the `bedNo` pieces from index 2 on, not the `bedNo`
  minus its floor segment.
* A missing amount field is `undefined`, and `Number(undefined)` is NaN, so
  a record missing any amount is never listed as owing
  (`MissingAmountNeverOwes`). A missing amount does not count as zero.
* The join token is `split("-")[1]`, the second piece only, so `B-42-x`
  joins on `42`, not on `42-x`.

## Model

| member | source | states |
|---|---|---|
| `Js.Split` | src/pages-sections/residents/residents-data.jsx:80 | `split("-")` returns at least one piece, and no piece contains the separator |
| `Js.Join` | src/pages-sections/home/availability-table.jsx:63 | `join("-")` starts with its first piece, and joining separator-free pieces yields a `-` exactly when there are two pieces or more; `JoinSplit` and `SplitJoin` make it the inverse of `Split` |
| `Js.JoinSplit` | src/pages-sections/home/availability-table.jsx:62-63 | joining the pieces of a split with `-` gives back the original string |
| `Js.SplitJoin` | src/pages-sections/home/availability-table.jsx:62-63 | splitting a join of separator-free pieces gives back those pieces |
| `Js.Token` | src/pages-sections/residents/residents-data.jsx:80 | `s.split("-")[i]`: piece 0 always exists; a string without `-` has only piece 0 (itself), and any other index is undefined |
| `Js.TokenOfJoin` | src/pages-sections/residents/residents-data.jsx:83 | the i-th piece of an identifier built from separator-free parts is the i-th part, and undefined past the last part |
| `Js.SliceFrom` | src/pages-sections/home/availability-table.jsx:63 | `slice(k)` holds the elements from index k on, and is empty when k is at or past the end |
| `Js.ParseNumber` | src/pages-sections/residents/residents-data.jsx:153-157 | `Number("")` is 0; a non-empty string yields a number exactly when it is a string of digits with an optional sign |
| `Js.NonCanonicalText` | src/pages-sections/residents/residents-data.jsx:153-157 | a digit string reads as its decimal value; a leading `0` or `+` does not change it ("007" and "+7" are 7), and a leading `-` negates it |
| `Js.ParseShow` | src/pages-sections/residents/residents-data.jsx:153 | `Number(String(n)) == n` for every integer n |
| `Js.NumberOfText` | src/pages-sections/residents/residents-data.jsx:152-157 | `Number(...)` reads an amount stored as the decimal text of an integer as that integer, the same as the number itself |
| `Lists.Filter` | src/pages-sections/residents/residents-data.jsx:101-103 | `filter` never grows the list, and everything it returns passes the predicate |
| `Lists.FilterMembers` | src/pages-sections/residents/residents-data.jsx:151-160 | an element is in the filtered list exactly when it is in the input and passes |
| `Lists.FilterIsSublist` | src/pages-sections/residents/residents-data.jsx:151-160 | the filtered list is an order-preserving sublist of the input |
| `Lists.Find` | src/pages-sections/residents/residents-data.jsx:79-84 | `find` is undefined exactly when nothing passes; otherwise it returns an element that passes and that no earlier element precedes with a pass |
| `Residents.LiveOf` | src/pages-sections/residents/residents-data.jsx:101-103 | the live list is no longer than the allotments and all of it has status exactly "live"; `StatusPartition` gives membership both ways and order |
| `Residents.LeftOf` | src/pages-sections/residents/residents-data.jsx:111-113 | the left list is no longer than the allotments and all of it has status exactly "left"; `StatusPartition` gives membership both ways and order |
| `Residents.StatusPartition` | src/pages-sections/residents/residents-data.jsx:99-117 | live and left residents are the order-preserving sublists whose status is exactly "live" or exactly "left"; no document is in both; any other status is in neither |
| `Residents.PartitionSize` | src/pages-sections/residents/residents-data.jsx:99-117 | live plus left never outnumber the allotments, and equal them when every status is "live" or "left" |
| `Residents.FindBooking` | src/pages-sections/residents/residents-data.jsx:79-81 | the booking joined is the first whose document id equals the name token; an undefined token joins no booking |
| `Residents.FindRentDetails` | src/pages-sections/residents/residents-data.jsx:82-84 | the rent details joined are the first whose `idNo` second piece equals the name token, two undefined pieces counting as equal; none when nothing matches |
| `Residents.MergeRecord` | src/pages-sections/residents/residents-data.jsx:86-90 | the merged record has every key of the three sources; rent-details values beat allotment values, which beat booking values |
| `Residents.MergeDocuments` | src/pages-sections/residents/residents-data.jsx:73-91 | exactly one merged record per allotment, in allotment order, each merging that allotment with its joined booking and rent details |
| `Residents.NoSeparatorNoBooking` | src/pages-sections/residents/residents-data.jsx:79-87 | an allotment whose name has no `-` gets no booking fields in its merged record |
| `Residents.AllotmentFieldsSurvive` | src/pages-sections/residents/residents-data.jsx:86-90 | an allotment field keeps its value in the merged record unless the joined rent details have the same key |
| `Residents.JoinScenario` | src/pages-sections/residents/residents-data.jsx:73-91 | allotment `p-id` and rent details `q-id` both join booking `id`, and the record is booking, then allotment, then rent-details fields |
| `Residents.Receivable` | src/pages-sections/residents/residents-data.jsx:152-158 | the receivable is NaN exactly when one of the five amount fields is missing, an object, or text that is not a number; otherwise it is deposit + monthlyRent + miscellaneous minus (paidAmount + advanceDeposit), each as `Number(...)` reads it; `OwesIff` states when it is positive |
| `Residents.Owes` | src/pages-sections/residents/residents-data.jsx:159 | a record owes only if all five amount fields are present; `OwesIff` gives the exact condition |
| `Residents.OwesIff` | src/pages-sections/residents/residents-data.jsx:151-159 | a record owes exactly when all five amounts are numbers and owed exceeds paid; a receivable of exactly 0 does not owe |
| `Residents.MissingAmountNeverOwes` | src/pages-sections/residents/residents-data.jsx:152-157 | a record missing any of the five amount fields is never listed as owing |
| `Residents.WithoutPaying` | src/pages-sections/residents/residents-data.jsx:151-160 | the owing list is no longer than its input and every record in it owes; `WithoutPayingSpec` gives membership both ways and order |
| `Residents.WithoutPayingSpec` | src/pages-sections/residents/residents-data.jsx:149-161 | the owing list is an order-preserving sublist of the left list, holding exactly the owing records, unchanged |
| `Residents.ArrearsScenario` | src/pages-sections/residents/residents-data.jsx:151-159 | 1000 + 500 + 0 owed with 200 paid is kept; with 1500 paid it is dropped |
| `Residents.ResidentsData.constructor` | src/pages-sections/residents/residents-data.jsx:16-20 | every derived list starts empty |
| `Residents.ResidentsData.FilterLiveResidents` | src/pages-sections/residents/residents-data.jsx:99-107 | `liveResidents` becomes the live sublist of the allotments; nothing else changes |
| `Residents.ResidentsData.FilterLeftResidents` | src/pages-sections/residents/residents-data.jsx:109-117 | `leftResidents` becomes the left sublist of the allotments; nothing else changes |
| `Residents.ResidentsData.MergeLeftResidents` | src/pages-sections/residents/residents-data.jsx:119-132 | `leftDataList` is replaced by the merge only when bookings, left residents and rent details are all non-empty, and is otherwise kept |
| `Residents.ResidentsData.MergeLiveResidents` | src/pages-sections/residents/residents-data.jsx:134-147 | `liveDataList` is replaced by the merge only when bookings, live residents and rent details are all non-empty, and is otherwise kept |
| `Residents.ResidentsData.DataWithoutPaid` | src/pages-sections/residents/residents-data.jsx:149-164 | `leftWithoutPaying` becomes the owing sublist of `leftDataList`; nothing else changes |
| `Availability.Covers` | src/pages-sections/home/availability-table.jsx:56-58 | a covering window has a valid start, valid ends and a start no later than its due date; `CoversBounds` pins its ends |
| `Availability.Occupying` | src/pages-sections/home/availability-table.jsx:55-59 | the covering allotments are no more than the allotments, and each covers the start |
| `Availability.CoversBounds` | src/pages-sections/home/availability-table.jsx:55-59 | the window test includes both ends, excludes the days just outside, and fails on an invalid date on either side or for the start |
| `Availability.OccupiedKey` | src/pages-sections/home/availability-table.jsx:62-63 | a `bedNo` of at most two pieces has key "", and one of at most three pieces has a key without `-`; `OccupiedKeyOfParts` gives the key of any joined `bedNo` |
| `Availability.OccupiedKeyOfParts` | src/pages-sections/home/availability-table.jsx:61-64 | the occupied key is the `bedNo` parts from index 2 on, rejoined with `-`, and "" when there are fewer than three parts |
| `Availability.OccupiedKeys` | src/pages-sections/home/availability-table.jsx:55-64 | there are no more occupied keys than allotments; `OccupiedKeysSpec` says which keys occur |
| `Availability.OccupiedKeysSpec` | src/pages-sections/home/availability-table.jsx:55-64 | a key is occupied exactly when some allotment covering the start has that key |
| `Availability.BedKey` | src/pages-sections/home/availability-table.jsx:71 | a bed key starts with `roomNo-`, and is `roomNo-undefined` for a bed name without `-`; `BedKeyOfParts` states the suffix for a bed name with one |
| `Availability.BedKeyOfParts` | src/pages-sections/home/availability-table.jsx:71 | for a bed name made of separator-free pieces, the key is `roomNo-` followed by the bed's second piece |
| `Availability.FilterRoom` | src/pages-sections/home/availability-table.jsx:69-74 | a filtered room keeps its number, never gains beds, and none of its beds has an occupied key |
| `Availability.FilterFloor` | src/pages-sections/home/availability-table.jsx:67-75 | a filtered floor keeps its number and its rooms in order with their numbers, none gaining beds |
| `Availability.FilterInventory` | src/pages-sections/home/availability-table.jsx:66-75 | the filtered inventory has the same floors, in order, with their numbers and room counts |
| `Availability.AvailableBeds` | src/pages-sections/home/availability-table.jsx:55-75 | the result has one floor per inventory floor, and no listed bed has a key occupied on the start date; `AvailableBedIff` and `AvailableBedsShape` complete it |
| `Availability.AvailableBedsShape` | src/pages-sections/home/availability-table.jsx:66-75 | the result has the same floors and rooms, in order and with the same numbers; each room's beds are an order-preserving sublist of the inventory's |
| `Availability.AvailableBedIff` | src/pages-sections/home/availability-table.jsx:70-73 | a bed stays exactly when it was in the room and its key `roomNo-<second piece>` is not occupied |
| `Availability.NothingOccupiedKeepsInventory` | src/pages-sections/home/availability-table.jsx:55-75 | when no allotment covers the start, the result equals the inventory |
| `Availability.InvalidStartKeepsInventory` | src/pages-sections/home/availability-table.jsx:55-59 | an invalid start date returns the inventory unchanged |
| `Availability.CoveredBedIsHidden` | src/pages-sections/home/availability-table.jsx:61-73 | a covering allotment whose `bedNo` is `floor-y-roomNo-suffix` hides bed `roomNo-suffix` of room `roomNo` (every piece separator-free) |
| `Availability.HiddenOnlyByFourParts` | src/pages-sections/home/availability-table.jsx:61-72 | a `bedNo` whose occupied key equals the key of bed `roomNo-x` (separator-free pieces) has exactly four pieces, the last two `roomNo` and `x` |
| `Availability.ThreePartBedNoHidesNothing` | src/pages-sections/home/availability-table.jsx:61-72 | `bedNo` "1-101-A" has key "A", while bed "101-A" of room "101" has key "101-A" |
| `Availability.ShortBedNoHidesNothing` | src/pages-sections/home/availability-table.jsx:61-72 | an allotment whose `bedNo` has at most three pieces hides no bed, whatever the room and bed names |
| `Availability.RoomScenario` | src/pages-sections/home/availability-table.jsx:53-79 | room beds `r-x`, `r-y`, and a covering allotment of `f-r-r-x`, leave only `r-y` |
| `Availability.RoomScenarioThreeParts` | src/pages-sections/home/availability-table.jsx:53-79 | the same room with the allotment written `f-r-x` leaves both beds |
| `Availability.AvailabilityTable.constructor` | src/pages-sections/home/availability-table.jsx:14-18 | nothing fetched, nothing filtered, not loading |
| `Availability.AvailabilityTable.ReceiveAllotments` | src/pages-sections/home/availability-table.jsx:24-29 | a status-200 response replaces the allotments; any other status keeps them |
| `Availability.AvailabilityTable.ApplyFilters` | src/pages-sections/home/availability-table.jsx:53-79 | afterwards `loading` is false and `filteredBeds` is the inventory minus the beds occupied on `start`; the allotments are untouched and `end` plays no part |

## Left out

- `src/pages-sections/add-expenses/add-expenses-view.jsx`: it forwards a form to a remote write and navigates on status 200. That is I/O and routing with no logic of its own.
- Remote fetching: `getAllotment`, the `useDataList` fetchers, their try/catch and logging. These are network clients and are not shown. `ReceiveAllotments` keeps only the status-200 test.
- React mechanics: when and in what order effects run, render batching, rendering, the view toggle and its buttons, table headings and `DataListTable`. Each effect is one method, and callers choose the order.
- The `startDate`/`dueDate` state, its change handlers and `handleApplyFilters`. They only pass the two dates to `applyFilters`, which is modelled.
- Date parsing and the default dates (`new Date`, `toISOString`, month arithmetic, time zones). Dates are day numbers, and `None` is an invalid date.
- The `bedData` constant is not shown. The inventory is a constructor argument of `AvailabilityTable`.
- `Js.ToNumber`: carries no contract of its own; its meaning is stated through `Residents.Receivable` and `Js.NumberOfText`. Stored numbers are integers, so fractional amounts and floating-point rounding are not modelled. A boolean gives 1 or 0. Any nested object or array gives NaN, although JavaScript coerces some arrays to numbers.
- `Js.ParseNumber`: the only strings it reads as numbers are "" and a sign followed by decimal digits. JavaScript also trims whitespace and accepts fractions, exponents, hexadecimal and `Infinity`; here those strings become NaN. Only digit strings with at most one sign have a stated value (`Js.NonCanonicalText`, `Js.ParseShow`).
- `Residents.MergeDocuments`: it requires every allotment's `name` and every rent-details `idNo` to be a string. The source throws a TypeError when `split` is called on anything else. For rent details that happens only for documents scanned before the match.
- The order of keys in a merged JavaScript object is not modelled, because records are maps.
- `Availability.AvailabilityTable.ApplyFilters`: the intermediate `loading = true` is set and cleared in one call. No state in between is observable, so only the final state is stated.
- `Residents.ResidentsData.MergeLeftResidents`: when bookings, the left residents and rent details are all non-empty, it requires every resident `name` and every rent-details `idNo` to be a string. On a non-string `name` the source's effect throws a TypeError and the list is left as it was; that run is outside the model. A non-string `idNo` after the first match is accepted by the source, whose `find` never splits it, and the list is set; that input is outside the model too.
- `Residents.ResidentsData.MergeLiveResidents`: when bookings, the live residents and rent details are all non-empty, it requires every resident `name` and every rent-details `idNo` to be a string. On a non-string `name` the source's effect throws a TypeError and the list is left as it was; that run is outside the model. A non-string `idNo` after the first match is accepted by the source, whose `find` never splits it, and the list is set; that input is outside the model too.
- `Residents.FindRentDetails`: it requires every rent-details `idNo` to be a string, as `MergeDocuments` does. The source throws a TypeError only for a document scanned before the match, so a non-string `idNo` after the match is outside the model.
- `Availability.AvailabilityTable.ApplyFilters`: `bedNo` is typed as a string. In the source, a covering allotment whose `bedNo` is missing or not a string makes `split` throw a TypeError, so `filteredBeds` is not updated and `loading` stays true. That error path is not modelled.
