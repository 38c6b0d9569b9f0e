# tc-employee-app: a Dafny model of the time and payroll core

tc-employee-app is a React front end for a small HR service. Its screens list
departments and employees, record each employee's daily entry and exit times
and leave hours, and turn those records into hour and pay totals, weekly
reports and a PDF report. This project models the parts of the app that carry
business rules. It then proves what those rules guarantee.

- **Time sheet** (`TimeSheetPage`). The editable table is date -> employee -> entry.
  - `handleTimeChange` edits one field of one entry.
  - `calculateHours` handles overnight shifts by adding 24 hours when the exit is earlier than the entry.
  - `calculateTotalHours` and `calculateTotalPay` add up every stored date.
  - The class `TimeSheet` holds the screen's state. Its loops are methods proved against recursive reference totals.
- **Time records** (`TimeRecords`). The `useTime` hook's `transformResponse` turns the time API's flat records into the same kind of table. It is a method that builds the table in place. It is proved against a fold, and the fold's properties are proved as lemmas:
  - which keys exist;
  - which value each field ends with;
  - when the call throws;
  - idempotence.
- **Employee report** (`EmployeeReport`). The PDF report's daily and overall totals, and the table body it lays out. Its work hours do *not* wrap overnight.
- **Weekly report** (`WeeklyReport`). The weekly table:
  - totals by `reduce`;
  - pay equals total times rate;
  - seven day columns;
  - a seven-zero default for employees without data.
- **Employee form** (`EmployeeFormHook`). The `useEmployeeForm` hook:
  - initial values with `??` defaults;
  - field edits;
  - the request parameter;
  - how a submit updates the employee list;
  - the toast it shows.
- **Delete confirmation** (`DeleteConfirmationHook`). The `useDeleteConfirmation` hook, as a class with the dialog's two state fields.
- **Department screen** (`DepartmentScreen`). The department list, its modal, and the handlers for submit, edit, add and confirm-delete.
- **Home** (`Home`). The dashboard's count of employees per department and the pie chart built from it. The model follows the code as written, which reads a misspelt property (see Findings). A corrected count is given beside it.
- **Select field** (`SelectField`). How the select control picks its initial value.

Shared modules:

- `Js` models JavaScript values: truthiness, `?.`, `??`, object spread and `===`.
- `Api` models the server's `{ success, data, message }` envelope. A reply is either an answered envelope or a rejected promise.
- `ListUpdates` models the `map`/`filter` list updates that the screens share.
- `Clock` models `HH:MM` times as minutes of the day.
- `Seqs` holds sequence helpers.

API calls appear as parameters: the handler receives the reply it would await. A method that issues a request returns the request as a `Call` value.

## Model

| member | source | states |
|---|---|---|
| Clock.HoursBetween | src/components/TimeSheet.js:42-44 | The difference of two same-day times in hours: `h * 60` is the minute difference, `h` lies strictly between -24 and 24, and `h` is negative exactly when the end is earlier |
| TimeSheetPage.CalculateHours | src/components/TimeSheet.js:40-47 | A blank entry or exit gives 0. Otherwise the result lies in [0, 24) and `h * 60` is the minute difference taken modulo one day, so an overnight shift gets 24 hours added |
| TimeSheetPage.OvernightShift | src/components/TimeSheet.js:44-45 | 22:00 to 06:00 gives 8 hours; equal times give 0 |
| TimeSheetPage.SetField | src/components/TimeSheet.js:27-38 | Only `table[d][e][f]` changes, to `v`. The row and the entry are created if absent. Every other date, employee and field keeps its value, and well-formed time fields stay well-formed |
| TimeSheetPage.TimeSheet.constructor | src/components/TimeSheet.js:9-20 | The initial state: empty `timeData`, the six fixed employees, the week starting at the given day, and a valid state |
| TimeSheetPage.TimeSheet.HandleTimeChange | src/components/TimeSheet.js:27-38 | The new `timeData` is `SetField` of the old one. The list of dates gains `d` at the end only when `d` is new, and the state stays valid |
| TimeSheetPage.FilteredEmployees | src/components/TimeSheet.js:23-25 | With no selection, every employee. Otherwise the employees with the selected id as a subsequence in their original order, each kept as many times as it occurs and no other employee kept |
| TimeSheetPage.FindEmployee | src/components/TimeSheet.js:66 | The first employee with the id, or `None` exactly when no employee has it |
| TimeSheetPage.TimeSheet.CalculateTotalHours | src/components/TimeSheet.js:49-63 | The loop's total equals the reference sum of the employee's daily hours over every stored date, in insertion order. A date with no entry for the employee adds 0 |
| TimeSheetPage.TimeSheet.CalculateTotalPay | src/components/TimeSheet.js:65-85 | 0 for an unknown employee. Otherwise the loop's total equals the reference pay over every stored date, at that employee's rate and overtime rate |
| TimeSheetPage.TimeSheet.AddDayPay | src/components/TimeSheet.js:79-81 | The three `totalPay +=` steps add one entry's pay: worked and leave hours at the rate, overtime at the overtime rate |
| TimeSheetPage.TimeSheet.RenderDayOptions | src/components/TimeSheet.js:87-98 | Seven options; option `i` has value `i` and shows day `weekStart + i` |
| TimeSheetPage.HoursOverConcat | src/components/TimeSheet.js:51-61 | Hour totals are additive when the stored dates are split in two |
| TimeSheetPage.PayOverConcat | src/components/TimeSheet.js:70-83 | Pay totals are additive when the stored dates are split in two |
| TimeSheetPage.PayFromHours | src/components/TimeSheet.js:70-83 | Total pay equals the non-overtime hours times the rate plus the overtime hours times the overtime rate, all read from the hour totals |
| TimeSheetPage.DayPayFromHours | src/components/TimeSheet.js:72-81 | The same decomposition of pay for one entry |
| TimeSheetPage.SumsOfDays | src/components/TimeSheet.js:51-61 | The recursive totals equal the sums of the per-date figures |
| TimeSheetPage.PayDaysFromHours | src/components/TimeSheet.js:70-83 | Per-date pay equals the per-date hour figures priced at the two rates |
| TimeSheetPage.AbsentEmployeeTotalsZero | src/components/TimeSheet.js:52 | An employee with no entry on any stored date totals 0 hours and 0 pay |
| TimeSheetPage.OnlyPunchesCountWorked | src/components/TimeSheet.js:53-59 | An entry with only its entry and exit times filled in adds exactly its worked hours |
| TimeSheetPage.ParseHoursMeaning | src/components/TimeSheet.js:54-58 | `parseFloat` with a default of 0, used for each hour field: a blank or non-numeric field gives 0, a number gives itself, and an `HH:MM` time gives its whole hours |
| TimeSheetPage.BlankOrTextCountsZero | src/components/TimeSheet.js:54-58 | An empty or non-numeric leave or overtime field counts as 0 |
| TimeSheetPage.PayExample | src/components/TimeSheet.js:79-81 | 8 worked hours and 2 overtime hours at 18 and 25 pay 194 |
| TimeRecords.Fresh | src/hooks/useTime.ts:61-71 | A new entry has all seven fields `null` |
| TimeRecords.Before | src/hooks/useTime.ts:52 | `split(c)[0]` is a prefix of `s` with no `c` in it, and it is all of `s` when `s` has no `c` |
| TimeRecords.DatePart | src/hooks/useTime.ts:52 | The date key is the part of `date` before the first `"T"` |
| TimeRecords.Take5 | src/hooks/useTime.ts:77 | `slice(0, 5)` is the first five characters, or the whole string when it is shorter |
| TimeRecords.TimeSlice | src/hooks/useTime.ts:76-77 | The stored time is `None` (a throwing `[1].slice`) exactly when there is no `"T"`. Otherwise it is a prefix of the piece between the first and second `"T"`, of length five or the whole piece when shorter |
| TimeRecords.AssignThrows | src/hooks/useTime.ts:74-83 | The field assignments throw exactly on a truthy time without a `"T"` |
| TimeRecords.AssignEffect | src/hooks/useTime.ts:73-100 | Otherwise each field becomes the record's value when that value is truthy, and keeps its old value when not |
| TimeRecords.TouchEffect | src/hooks/useTime.ts:55-71 | The two initialisations add the row and the entry only if absent and change nothing else |
| TimeRecords.PlaceThrows | src/hooks/useTime.ts:52-83 | One iteration throws exactly when the record has no string `date` (so `item.date.split` throws) or has a truthy time without a `"T"` |
| TimeRecords.PlaceEffect | src/hooks/useTime.ts:51-101 | A non-throwing iteration changes only the entry of the record's (date, employee) key, creating it if absent |
| TimeRecords.PlaceRecord | src/hooks/useTime.ts:51-101 | The in-place loop body leaves `result` equal to one step of the reference fold, or reports the throw |
| TimeRecords.CopyTimes | src/hooks/useTime.ts:74-83 | The two time assignments equal the reference assignment, including the throwing case |
| TimeRecords.CopyHours | src/hooks/useTime.ts:86-100 | The five hour assignments equal the reference assignment |
| TimeRecords.TransformResponse | src/hooks/useTime.ts:47-107 | The method's result equals the reference transformation. Anything other than an array gives the empty table |
| TimeRecords.IngestConcat | src/hooks/useTime.ts:51 | Running the loop over `a + b` equals running it over `a` and then over `b` |
| TimeRecords.ThrowPersists | src/hooks/useTime.ts:51-101 | Once a prefix of the records throws, the whole call throws |
| TimeRecords.TypeErrorIff | src/hooks/useTime.ts:51-83 | The call throws exactly when some record has no string `date` or has a truthy time without a `"T"` |
| TimeRecords.IngestDates | src/hooks/useTime.ts:52-58 | A successful call's dates are the start table's dates plus the records' `YYYY-MM-DD` keys, and no others |
| TimeRecords.IngestPairs | src/hooks/useTime.ts:52-71 | A successful call's (date, employee) pairs are the start pairs plus those occurring in the records, and no others |
| TimeRecords.IngestHours | src/hooks/useTime.ts:86-100 | Each hour field holds the last truthy value the records gave it, or its start value (`null` for a new entry) |
| TimeRecords.IngestTimes | src/hooks/useTime.ts:74-83 | Each time field holds the `HH:MM` of the last truthy time the records gave it, or its start value |
| TimeRecords.LastHoursAbsent | src/hooks/useTime.ts:86-100 | An hour field for a key that no record has keeps its start value |
| TimeRecords.LastTimeAbsent | src/hooks/useTime.ts:74-83 | A time field for a key that no record has keeps its start value |
| TimeRecords.LastHoursIdempotent | src/hooks/useTime.ts:86-100 | Rereading the records over the hour values they produced changes nothing |
| TimeRecords.LastTimeIdempotent | src/hooks/useTime.ts:74-83 | Rereading the records over the time values they produced changes nothing |
| TimeRecords.AgainDates | src/hooks/useTime.ts:55-58 | A second run over the same records adds no date |
| TimeRecords.AgainRows | src/hooks/useTime.ts:60-71 | A second run over the same records adds no (date, employee) pair |
| TimeRecords.AgainEntry | src/hooks/useTime.ts:73-100 | A second run leaves every entry of the first run's table as it was |
| TimeRecords.IngestAgain | src/hooks/useTime.ts:51-101 | Running the records again over the table they produced gives that table back |
| TimeRecords.TransformTwice | src/hooks/useTime.ts:47-107 | Sending the records twice over gives the same table as sending them once |
| TimeRecords.BeforeSeparator | src/hooks/useTime.ts:52 | `split` stops at the first separator: `(p + c + q).split(c)[0] == p` when `p` has no `c` |
| TimeRecords.SliceAfter | src/hooks/useTime.ts:76-77 | The stored time of `day + "T" + hhmm + tail` is `hhmm` |
| TimeRecords.PlaceFirst | src/hooks/useTime.ts:55-100 | The first record placed into an empty table gives a table with one date and one entry |
| TimeRecords.SingleRecord | src/hooks/useTime.ts:47-107 | For a single ISO record: the key is the date before the `"T"`, the times are the five characters after it, a zero hour field stays `null` and a non-zero one is copied |
| EmployeeReport.WorkHours | src/components/EmployeeReportPDF.js:31-32 | 0 when either time is missing. Otherwise `h * 60` is the minute difference with no overnight wrap, and `h` is negative exactly when the exit is earlier |
| EmployeeReport.AddUp | src/components/EmployeeReportPDF.js:30-35 | The `forEach` total equals the reference sum of each record's work hours plus its five hour fields, with missing ones as 0 |
| EmployeeReport.CalculateTotalHours | src/components/EmployeeReportPDF.js:15-24 | The overall total sums every value of `hours`, which may be an array or an object, and is 0 for a missing `hours`; the date argument is ignored |
| EmployeeReport.CalculateTotalHoursDay | src/components/EmployeeReportPDF.js:25-37 | The day total sums exactly the values whose `date` is the given day |
| EmployeeReport.Row | src/components/EmployeeReportPDF.js:67-90 | Nine cells: the report date; then the times ("N/A" when missing) and the five hour fields (0 when missing) of the lowest-index array record with that date, or "N/A", "N/A" and five zeros when none has it; then the day total over every value of `hours` |
| EmployeeReport.RowFor | src/components/EmployeeReportPDF.js:67-90 | The loop body builds the reference row of the date |
| EmployeeReport.GeneratePdfBody | src/components/EmployeeReportPDF.js:39-91 | No body exactly when the report dates are missing or empty. Otherwise the header followed by one row per date, in order |
| EmployeeReport.BodyAppend | src/components/EmployeeReportPDF.js:80-90 | Each iteration appends exactly the row of its date |
| EmployeeReport.BodyShape | src/components/EmployeeReportPDF.js:53-91 | The body has one row more than there are dates. Row 0 is the nine-column header and row `i` belongs to date `i - 1` |
| EmployeeReport.TotalOfConcat | src/components/EmployeeReportPDF.js:30-35 | Totals are additive over concatenation |
| EmployeeReport.DayTotalAppend | src/components/EmployeeReportPDF.js:27-35 | Appending a record adds its hours to its own day's total and leaves other days' totals unchanged, so records with the same date count twice |
| EmployeeReport.DayTotalAllSameDay | src/components/EmployeeReportPDF.js:27 | When every record has the day's date, the day total is the overall total |
| EmployeeReport.DayTotalAbsent | src/components/EmployeeReportPDF.js:27-35 | A day with no record totals 0 |
| EmployeeReport.ShownIsFirstMatch | src/components/EmployeeReportPDF.js:68-69 | The displayed record is the lowest-index array record for the date, or the empty record when none matches |
| EmployeeReport.NonArrayRows | src/components/EmployeeReportPDF.js:51 | When `hours` is not an array, the seven middle cells show "N/A" and zeros, but the total cell still sums the object's values for the date |
| EmployeeReport.WrapDiffers | src/components/EmployeeReportPDF.js:31-32 | The report's work hours equal the time sheet's `calculateHours` when the exit is not earlier, and are 24 less when it is earlier |
| WeeklyReport.InitialEmployees | src/components/WeeklyReport.js:25-32 | Six employees, each at rate 15 |
| WeeklyReport.CalculateTotalHours | src/components/WeeklyReport.js:44 | An empty list totals 0 |
| WeeklyReport.HoursFor | src/components/WeeklyReport.js:154 | The employee's hours when present, else seven zeros |
| WeeklyReport.RenderWeekDays | src/components/WeeklyReport.js:47-54 | Seven days and day `i` is `weekStart + i` |
| WeeklyReport.Header | src/components/WeeklyReport.js:142-150 | "Empleado", one label per day in order, then the three total labels |
| WeeklyReport.Row | src/components/WeeklyReport.js:158-166 | The name, one cell per hour value in order, the total, the rate and the pay |
| WeeklyReport.ReduceShift | src/components/WeeklyReport.js:44 | A `reduce` from `acc` equals `acc` plus the `reduce` from 0 |
| WeeklyReport.TotalIsSum | src/components/WeeklyReport.js:44 | The `reduce` total equals the plain sum of the hours |
| WeeklyReport.TotalConcat | src/components/WeeklyReport.js:44 | The total is additive over concatenation |
| WeeklyReport.CalculateTotalPay | src/components/WeeklyReport.js:45 | The pay is the sum of the week's hours times the rate |
| WeeklyReport.PayConcat | src/components/WeeklyReport.js:45 | Pay is additive over concatenation |
| WeeklyReport.TotalBounds | src/components/WeeklyReport.js:44 | With non-negative hours, the total is non-negative and at least every single day |
| WeeklyReport.TotalZero | src/components/WeeklyReport.js:44 | All-zero hours total 0 |
| WeeklyReport.MissingEmployeeZero | src/components/WeeklyReport.js:154-156 | An employee without data has 0 hours, 0 pay and an 11-cell row |
| WeeklyReport.TableWidth | src/components/WeeklyReport.js:142-166 | With seven days, the header and every row have 11 cells |
| ListUpdates.MergeWhere | src/components/Department.js:149-154 | Same length. Elements without the id are unchanged, and an element with the id becomes itself spread with the patch: its keys are the union and the patch's values win |
| ListUpdates.RemoveWhere | src/components/Department.js:130 | The result is a subsequence of the list, in its order, holding every copy of each element without the id and no element with it |
| ListUpdates.Submitted | src/hooks/useEmployeeForm.js:28-32 | Edit mode merges the response into the matching elements. Create mode appends it, keeping the list as a prefix |
| ListUpdates.RemoveNoMatch | src/components/Department.js:130 | Removing an id that no element has keeps the list |
| ListUpdates.RemoveIdempotent | src/components/Department.js:130 | Removing twice equals removing once |
| ListUpdates.MergeNoMatch | src/hooks/useEmployeeForm.js:30 | Merging for an id that no element has keeps the list |
| ListUpdates.MergeIdempotent | src/hooks/useEmployeeForm.js:30 | Merging the same patch twice equals merging it once |
| EmployeeFormHook.InitialEmployee | src/hooks/useEmployeeForm.js:6-14 | Exactly the seven form keys. Each value is the data's own when present and non-nullish, else the default: `null` for the id, "anonymous.png" for the photo, "" otherwise |
| EmployeeFormHook.BlankForm | src/hooks/useEmployeeForm.js:6-14 | Without data, the form is the all-defaults record |
| EmployeeFormHook.FormFromData | src/hooks/useEmployeeForm.js:6-14 | A present, non-nullish field of the data is copied |
| EmployeeFormHook.CreateParameter | src/hooks/useEmployeeForm.js:22-26 | Every key of the data. The department and gender become `{ departmentId }` and `{ genderId }` objects; the rest are copied |
| EmployeeFormHook.ErrorMessage | src/hooks/useEmployeeForm.js:52 | Always truthy. It is the server's message when that is truthy, and the fallback text otherwise |
| EmployeeFormHook.SubmitToast | src/hooks/useEmployeeForm.js:42-53 | A success toast exactly when the envelope succeeded. An answered envelope shows its message; a rejection shows the error message |
| EmployeeFormHook.UpdateEmployeeList | src/hooks/useEmployeeForm.js:28-32 | Editing keeps the length, keeps the elements whose id differs, and gives each matching element the response's fields over its own. Creating appends the response's data |
| EmployeeFormHook.ResubmitEdit | src/hooks/useEmployeeForm.js:30 | Resubmitting the same edit gives the same list |
| EmployeeFormHook.EmployeeForm.constructor | src/hooks/useEmployeeForm.js:5-16 | The hook's initial state: the given list and mode, the initial form, not submitting |
| EmployeeFormHook.EmployeeForm.HandleInputChange | src/hooks/useEmployeeForm.js:18-20 | Only the named field changes, to the new value; the list and the submitting flag stay |
| EmployeeFormHook.EmployeeForm.BeginSubmit | src/hooks/useEmployeeForm.js:34-40 | The form is marked submitting and the update or create request carries `createParameter(data)` |
| EmployeeFormHook.EmployeeForm.FinishSubmit | src/hooks/useEmployeeForm.js:42-56 | The submitting flag is cleared in every case. The list is updated exactly on a successful envelope |
| DeleteConfirmationHook.DeleteConfirmation.constructor | src/hooks/useDeleteConfirmation.js:4-5 | The hook starts with the dialog hidden and no pending item |
| DeleteConfirmationHook.DeleteConfirmation.HandleDeleteClick | src/hooks/useDeleteConfirmation.js:7-10 | The dialog opens about the given item |
| DeleteConfirmationHook.DeleteConfirmation.HandleCancelDelete | src/hooks/useDeleteConfirmation.js:12-15 | Back to closed from any state |
| DeleteConfirmationHook.DeleteConfirmation.HandleConfirmDelete | src/hooks/useDeleteConfirmation.js:17-25 | The delete is requested for the pending item and its reply is passed on unchanged. An answered call closes the dialog; a rejection skips the reset |
| DepartmentScreen.BlankDepartment | src/components/Department.js:169-173 | The add form: a `null` id and an empty name |
| DepartmentScreen.EditedDepartment | src/components/Department.js:179-182 | The edit form: exactly the item's id and name |
| DepartmentScreen.DepartmentPage.constructor | src/components/Department.js:82-88 | No departments, modal closed, create mode, a blank form, and a closed confirmation hook |
| DepartmentScreen.DepartmentPage.HandleConfirmToDelete | src/components/Department.js:122-134 | On success, drops the departments whose id was the pending one. On a failed envelope, keeps the list and shows the error. A rejection changes nothing |
| DepartmentScreen.DepartmentPage.HandleSubmit | src/components/Department.js:136-167 | Issues the update or create request. Only a successful envelope merges or appends the response's data and closes the modal. Each failure gives its own error toast |
| DepartmentScreen.DepartmentPage.HandleAddClick | src/components/Department.js:169-176 | A blank form in create mode with the modal open; the list stays |
| DepartmentScreen.DepartmentPage.HandleEdit | src/components/Department.js:178-185 | The item's form in edit mode with the modal open; the list stays |
| DepartmentScreen.DepartmentPage.CloseModal | src/components/Department.js:187-189 | The modal closes and nothing else changes |
| DepartmentScreen.DeleteKeepsOthers | src/components/Department.js:125-131 | A successful delete keeps every copy of each department with another id and none with the pending id, as a subsequence. A failed one keeps the list |
| Home.Store | src/Home.js:27-29 | The count of key `k` is set. `k` joins the key order at the end only when it is new |
| Home.CountDepartments | src/Home.js:24-31 | The loop's tally equals the reference fold, including the throw |
| Home.PieChartData | src/Home.js:34-38 | One slice per key, in key order, with the key as id and label and its count as value |
| Home.GetDepartmentData | src/Home.js:17-45 | No chart exactly when the fetch rejects, the reply's `data` is not an array, or the count throws. Otherwise the chart of the tally of the fetched employees. `success` is not checked |
| Home.ChartThrowsIff | src/Home.js:20-25 | No chart exactly when the fetch rejects, `data` is not an array, or some employee has no department object |
| Home.FailurePersists | src/Home.js:25-26 | Once a prefix of the employees throws, the whole count throws |
| Home.ThrowsIff | src/Home.js:26 | The count throws exactly when some employee has no department object |
| Home.TickKeys | src/Home.js:26-30 | One step keeps the tally well-formed and adds at most the employee's department name as a key |
| Home.KeysAreNames | src/Home.js:25-31 | The tally's keys are exactly the department names of the employees (`"undefined"` for a missing name) |
| Home.TypoCountsOnce | src/Home.js:26-29 | As written, with real department objects, every department's count is 1 however many employees it has |
| Home.TypoUndercounts | src/Home.js:25-31 | As written, two employees of "Sales" give a count of 1 |
| Home.IntendedCounts | src/Home.js:26-29 | With the intended lookup, each department's count is the number of its employees; names with no employees have no key |
| Home.IntendedCountsTwo | src/Home.js:26-29 | With the intended lookup, two employees of "Sales" give a count of 2 |
| Home.EmptyPie | src/Home.js:24-38 | No employees give an empty tally and an empty chart |
| SelectField.IsOptionObject | src/components/SelectFieldController.js:6 | Holds only for a non-empty list. An object first option passes, and so does `null` since its `typeof` is 'object'; every other first value fails |
| SelectField.GetDefaultValue | src/components/SelectFieldController.js:7-13 | A truthy `defaultValue.value` is chosen as it is. The choice throws exactly when the default is falsy and the first option is missing, `null` or `undefined` |
| SelectField.ValueKeyOnlyForObjects | src/components/SelectFieldController.js:12 | With a falsy default, the first option is read under the value key when it passes the object test and under "value" otherwise, so the `optionValueKey` prop changes the choice only for an object first option and a key other than "value" |
| SelectField.FirstOptionValue | src/components/SelectFieldController.js:5-12 | With a falsy default, an object first option gives its property under the value key, which is "value" unless the prop names another |
| SelectField.PrimitiveFirstOption | src/components/SelectFieldController.js:12 | A primitive first option other than `null` and `undefined` gives `undefined` |

## Left out

- REST calls (axios), the `useEffect` fetches (`fetchDepartmentData`, `getGenderData`), `localStorage` caching, toasts as side effects, and `console` logging. Each reply is a parameter, and each toast is a returned value.
- The simulated weekly hours (`Math.random`, src/components/WeeklyReport.js:36-42). Weekly hours are an input map.
- Floating-point arithmetic and `toFixed(2)`. Hours and pay are exact reals, and totals are the values before they are formatted as strings.
- date-fns formatting and `addDays`. Days are integer indices, and the date keys of the records are strings.
- pdfMake's document definition and download (src/components/EmployeeReportPDF.js:93-183). They are a rendering library taking the modelled body.
- EmployeeReport.GeneratePdfBody: `generatePDF` also throws when `employee` is undefined, because the destructuring at src/components/EmployeeReportPDF.js:45-49 runs after the report-dates check. The model takes no `employee` and returns a body in that case. The destructured id, code and name only feed the document's title and subheader text, which are not modelled.
- The mobile card views. They show the same figures as the tables.
- A `NaN` count and `parseFloat` of arbitrary text. Text is classified as empty, an `HH:MM` time, a number, or other text, and other text parses as 0.
- Time strings other than `HH:MM` passed to `new Date`. A time input only hands over an empty string or `HH:MM`.
- Object identity under `===`. `StrictEquals` treats two objects as unequal, which is exact for the id comparisons modelled.
- The ordering of integer-like keys by `Object.keys`. The Home tally keeps insertion order.
- Home: `department.departmentName` is modelled as a string or absent. A non-string name would be stringified as a key.
- SelectField: an `options` prop that is `undefined` throws at `options.length`. The model takes a list.
- TimeSheetPage.TimeSheet.CalculateTotalPay: the three per-entry additions are in `AddDayPay`, which the loop calls.
- EmployeeReport.CalculateTotalHoursDay: a string total from `toFixed(2)` is always truthy, so the `|| 0` default at src/components/EmployeeReportPDF.js:78 never applies. The model keeps the number.

## Findings

| source | as written | input that shows it | evidently intended | confidence | as-written member | corrected member |
|---|---|---|---|---|---|---|
| src/Home.js:26 | The guard reads `employee.department.departmenName`, a property the department objects do not have. It always tests `departmentCounts["undefined"]`, so every department's count is reset to 1 | Two employees whose department is `{ departmentName: "Sales" }` | The guard reads `departmentName`, so "Sales" counts 2 | not executed | Home.TypoUndercounts | Home.IntendedCounts |

`Home.GetDepartmentData` follows the code as written, because that is what the page shows. `Home.IntendedTallyOf` is the corrected loop, and `Home.IntendedCounts` and `Home.IntendedCountsTwo` state what it computes.
