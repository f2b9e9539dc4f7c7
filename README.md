# Task-Master: the to-do list and the account forms, in Dafny

Task-Master is an Android app written with Jetpack Compose. Almost all of
it is layout. This project models the parts that hold logic:

- **The to-do screen (`TaskUi`).** It keeps an in-memory list of tasks and
  the state of the "Add New Task" dialog. Each handler replaces the list:
  the checkbox maps over it, the delete button filters it, and "Add Task"
  puts a new task in front. The header shows the completed and total
  counts and a progress bar.
- **The sign-up form.** The "SignUp" button checks the form in a fixed
  order. A rejected form gets one error toast. An accepted form is handed
  to the view model's insert as a `UserDataModel`. The success toast and
  the move to the dashboard happen only in that insert's completion
  callback.
- **The login form.** The "Login" button shows a success toast when both
  fields are non-blank. Otherwise it does nothing.

Modules:

- `Text`: Kotlin's `isBlank()` and `trim()`, built on the JVM's
  `Char.isWhitespace()`.
- `Users`: the user record.
- `Effects`: what a handler asks the platform to do (toasts, the insert and
  its callback, navigation), returned as values in the order issued.
- `Tasks`: the task record and the list transforms as pure functions. It
  also holds the class `TaskUi`, with the screen's five remembered
  variables as fields and one method per handler.
- `SignUp` and `Login`: the form states, the classes that hold them (one
  method per field edit and per button), and the validation.

Some inputs come from outside the code. The random UUID and the wall-clock
time that `Task(...)` draws become parameters: `freshId` and `now` for a
submit, and eight ids and eight timestamps for the initial sample list.
Toasts, the insert and navigation are the returned `Effect` values.

Two places where the code is more specific than a loose reading of the app:

- Delete removes *every* task with the given id, because it is a filter.
  Toggle likewise flips every task with that id.
- The sign-up errors are the toast texts "Please fill all fields" and
  "Passwords do not match". The login button only shows "Login Successful".
  It neither navigates nor checks the stored users.

## Model

| member | source | states |
|---|---|---|
| Text.IsWhitespace | app/src/main/java/com/yashagrawal/taskmaster/presentations/authentication/SignUpScreen.kt:229-233 | The JVM's `Char.isWhitespace()`, which both `trim()` and `isBlank()` use. It covers tab, line feed, vertical tab, form feed, carriage return, U+001C..U+001F, the space, and every Unicode space, line and paragraph separator, including the no-break spaces U+00A0, U+2007 and U+202F. |
| Text.IsBlank | app/src/main/java/com/yashagrawal/taskmaster/presentations/TasksUi/TasksUi.kt:145 | `isBlank()`: the string is empty or every character is whitespace. |
| Text.Trim | app/src/main/java/com/yashagrawal/taskmaster/presentations/authentication/SignUpScreen.kt:229 | The result is a contiguous piece of the input, with only whitespace before and after it in the input. It is empty exactly when the input is blank. Otherwise it starts and ends with a non-whitespace character. |
| Text.TrimUnique | app/src/main/java/com/yashagrawal/taskmaster/presentations/authentication/SignUpScreen.kt:229 | Any piece of the input that satisfies Trim's contract is Trim's result, so the contract determines what `trim()` returns. |
| Text.TrimIdempotent | app/src/main/java/com/yashagrawal/taskmaster/presentations/TasksUi/TasksUi.kt:147-148 | Trimming an already trimmed name or description changes nothing. |
| Text.BlankAfterTrim | app/src/main/java/com/yashagrawal/taskmaster/presentations/authentication/SignUpScreen.kt:229-233 | A string is blank exactly when its trimmed form is blank, so the blank test on the trimmed name agrees with the test on the raw name. |
| Tasks.Toggle | app/src/main/java/com/yashagrawal/taskmaster/presentations/TasksUi/TasksUi.kt:91-94 | Keeps the length and order. Flips `isCompleted` on exactly the tasks whose id matches. Every other field and every other task is unchanged. |
| Tasks.ToggleTwice | app/src/main/java/com/yashagrawal/taskmaster/presentations/TasksUi/TasksUi.kt:91-94 | Toggling the same id twice gives back the original list. |
| Tasks.ToggleAbsent | app/src/main/java/com/yashagrawal/taskmaster/presentations/TasksUi/TasksUi.kt:91-94 | Toggling an id that no task has leaves the list unchanged. |
| Tasks.ToggleKeepsUniqueIds | app/src/main/java/com/yashagrawal/taskmaster/presentations/TasksUi/TasksUi.kt:91-94 | If the ids are distinct before a toggle, they are distinct after it. |
| Tasks.Delete | app/src/main/java/com/yashagrawal/taskmaster/presentations/TasksUi/TasksUi.kt:97 | A task survives exactly when it was in the list and its id differs. The list never grows. An absent id is a no-op. |
| Tasks.DeleteAppend | app/src/main/java/com/yashagrawal/taskmaster/presentations/TasksUi/TasksUi.kt:97 | Deleting from a concatenation is the concatenation of the deletes, so the survivors keep their relative order. |
| Tasks.DeleteAt | app/src/main/java/com/yashagrawal/taskmaster/presentations/TasksUi/TasksUi.kt:97 | With distinct ids, deleting the id of the task at position k gives the list minus that one position, in order. |
| Tasks.DeleteLength | app/src/main/java/com/yashagrawal/taskmaster/presentations/TasksUi/TasksUi.kt:97 | With distinct ids, a delete shortens the list by one if the id is present and by zero if it is absent. |
| Tasks.DeleteKeepsUniqueIds | app/src/main/java/com/yashagrawal/taskmaster/presentations/TasksUi/TasksUi.kt:97 | If the ids are distinct before a delete, they are distinct after it. |
| Tasks.PrependFreshKeepsUniqueIds | app/src/main/java/com/yashagrawal/taskmaster/presentations/TasksUi/TasksUi.kt:151 | Putting a task with a fresh id in front keeps the ids distinct. |
| Tasks.CompletedCount | app/src/main/java/com/yashagrawal/taskmaster/presentations/TasksUi/TasksUi.kt:78 | The completed count is at most the total. It is 0 exactly when no task is completed, and equals the total exactly when all are. |
| Tasks.ToggleCompletedCount | app/src/main/java/com/yashagrawal/taskmaster/presentations/TasksUi/TasksUi.kt:77-94 | With distinct ids, toggling one task moves the completed count by exactly one: down if that task was completed, up if it was not. |
| Tasks.Progress | app/src/main/java/com/yashagrawal/taskmaster/presentations/TasksUi/TasksUi.kt:218 | Progress is 0 when there are no tasks. Otherwise progress times total equals completed, and progress lies in [0, 1] when 0 <= completed <= total. |
| Tasks.SampleTask | app/src/main/java/com/yashagrawal/taskmaster/presentations/TasksUi/TasksUi.kt:495-542 | The k-th sample task carries the given id and timestamp. It is completed exactly for the 2nd, 5th and 8th entries. |
| Tasks.FakeTasks | app/src/main/java/com/yashagrawal/taskmaster/presentations/TasksUi/TasksUi.kt:493-544 | The sample list has eight tasks, each with its own id and timestamp. |
| Tasks.FakeTasksCompleted | app/src/main/java/com/yashagrawal/taskmaster/presentations/TasksUi/TasksUi.kt:493-544 | Three of the eight sample tasks start out completed. |
| Tasks.FakeTasksUniqueIds | app/src/main/java/com/yashagrawal/taskmaster/presentations/TasksUi/TasksUi.kt:33 | Eight distinct UUIDs give a sample list with distinct ids. |
| Tasks.ApplyEditKeepsUniqueIds | app/src/main/java/com/yashagrawal/taskmaster/presentations/TasksUi/TasksUi.kt:91-151 | A submit with a fresh id, a toggle or a delete keeps the ids distinct. It changes the length by +1, 0, or -1 when a delete finds its task. |
| Tasks.ApplyEditsInvariant | app/src/main/java/com/yashagrawal/taskmaster/presentations/TasksUi/TasksUi.kt:91-151 | From distinct ids, any run of fresh submits, toggles and deletes keeps the ids distinct. The final length is the initial length plus the submits minus the deletes that found their task. |
| Tasks.ExampleSession | app/src/main/java/com/yashagrawal/taskmaster/presentations/TasksUi/TasksUi.kt:91-151 | Applying four edits to an empty list gives just "Buy milk", completed, with progress 1. The edits are: add "Buy milk", add "Call mom", toggle the first, delete the second. |
| Tasks.TaskUi.constructor | app/src/main/java/com/yashagrawal/taskmaster/presentations/TasksUi/TasksUi.kt:61-65 | The screen starts with the sample list, the dialog closed, empty name and description, and MEDIUM priority. The ids are distinct from the start, given eight distinct UUIDs. |
| Tasks.TaskUi.OnAddTaskClick | app/src/main/java/com/yashagrawal/taskmaster/presentations/TasksUi/TasksUi.kt:111 | The floating button opens the dialog and changes nothing else. |
| Tasks.TaskUi.OnTaskNameChange | app/src/main/java/com/yashagrawal/taskmaster/presentations/TasksUi/TasksUi.kt:135 | Editing the name sets only the name. |
| Tasks.TaskUi.OnTaskDescriptionChange | app/src/main/java/com/yashagrawal/taskmaster/presentations/TasksUi/TasksUi.kt:136 | Editing the description sets only the description. |
| Tasks.TaskUi.OnPriorityChange | app/src/main/java/com/yashagrawal/taskmaster/presentations/TasksUi/TasksUi.kt:137 | Choosing a priority sets only the priority. |
| Tasks.TaskUi.OnToggleComplete | app/src/main/java/com/yashagrawal/taskmaster/presentations/TasksUi/TasksUi.kt:90-95 | The list becomes its toggle and the form is untouched. Distinct ids stay distinct. |
| Tasks.TaskUi.OnDeleteTask | app/src/main/java/com/yashagrawal/taskmaster/presentations/TasksUi/TasksUi.kt:96-98 | The list becomes its delete and the form is untouched. Distinct ids stay distinct. |
| Tasks.TaskUi.OnDismiss | app/src/main/java/com/yashagrawal/taskmaster/presentations/TasksUi/TasksUi.kt:138-143 | Dismissing closes the dialog and resets the name and description to "" and the priority to MEDIUM. The list is kept. |
| Tasks.TaskUi.OnSubmit | app/src/main/java/com/yashagrawal/taskmaster/presentations/TasksUi/TasksUi.kt:144-157 | A blank name changes nothing at all. Otherwise the list becomes [t] + old list, where t is not completed and has the fresh id, the time, the trimmed name and description, and the selected priority. The form is then reset and the new name is not blank. A fresh id keeps the ids distinct. |
| Tasks.TaskUi.Header | app/src/main/java/com/yashagrawal/taskmaster/presentations/TasksUi/TasksUi.kt:76-78 | The header shows total = list size and completed = completed count. completed <= total, and the progress is in [0, 1]. |
| SignUp.ValidateSignUp | app/src/main/java/com/yashagrawal/taskmaster/presentations/authentication/SignUpScreen.kt:229-243 | A blank name or password (raw or trimmed) gives "missing fields". Otherwise a password that differs from its confirmation gives "mismatch". Only the remaining case succeeds, with id 0, the trimmed name (not blank, already trimmed) and the password verbatim. |
| SignUp.SignUpForm.constructor | app/src/main/java/com/yashagrawal/taskmaster/presentations/authentication/SignUpScreen.kt:41-49 | The form starts with empty strings, all flags false and no error message. |
| SignUp.SignUpForm.OnNameChange | app/src/main/java/com/yashagrawal/taskmaster/presentations/authentication/SignUpScreen.kt:138 | Editing the name changes only the name. |
| SignUp.SignUpForm.OnPasswordChange | app/src/main/java/com/yashagrawal/taskmaster/presentations/authentication/SignUpScreen.kt:166 | Editing the password changes only the password. |
| SignUp.SignUpForm.OnConfirmPasswordChange | app/src/main/java/com/yashagrawal/taskmaster/presentations/authentication/SignUpScreen.kt:197 | Editing the confirmation changes only the confirmation. |
| SignUp.SignUpForm.OnSignUpClick | app/src/main/java/com/yashagrawal/taskmaster/presentations/authentication/SignUpScreen.kt:228-250 | A rejected form yields exactly its error toast: no insert and no navigation. An accepted form yields exactly one insert, of the validated record, and the dashboard is reached only through that insert's callback. The handler never navigates directly. |
| Login.LoginAccepted | app/src/main/java/com/yashagrawal/taskmaster/presentations/authentication/LoginScreen.kt:195 | The login check: the name and the password, as typed, are both non-blank. |
| Login.SignUpAcceptedCanLogIn | app/src/main/java/com/yashagrawal/taskmaster/presentations/authentication/LoginScreen.kt:195 | Every name and password that sign-up accepts passes the login check. |
| Login.LoginForm.constructor | app/src/main/java/com/yashagrawal/taskmaster/presentations/authentication/LoginScreen.kt:37-44 | The form starts with empty strings, all flags false and no error message. |
| Login.LoginForm.OnNameChange | app/src/main/java/com/yashagrawal/taskmaster/presentations/authentication/LoginScreen.kt:133 | Editing the name changes only the name. |
| Login.LoginForm.OnPasswordChange | app/src/main/java/com/yashagrawal/taskmaster/presentations/authentication/LoginScreen.kt:161 | Editing the password changes only the password. |
| Login.LoginForm.OnLoginClick | app/src/main/java/com/yashagrawal/taskmaster/presentations/authentication/LoginScreen.kt:194-197 | The button acts exactly when the raw name and password are both non-blank, and then shows only "Login Successful". A refused login does nothing. It never navigates or inserts, and it leaves the form unchanged. |

## Left out

- Compose rendering: layout, colours, animations, the dialog window, the
  expand/collapse state of a task card, and the "Add Task" button being
  disabled while the name is blank. The submit handler's own blank check is
  modelled, so a blank submit is covered either way.
- The Room store: the DAOs, the entities, replace-on-conflict, the
  `users_list` row count and the lazily built database singleton. These are
  library behaviour and concurrency. The insert is an `InsertUser` effect
  that carries its completion callback, not a write to a modelled table.
- The view model's coroutine launch. The insert is taken to finish and then
  to run its callback, as the `InsertUser` effect says.
- Navigation routing. `Navigate` records the route and the back-stack pop
  that the handler requests. Whether the navigation graph has that
  destination is not modelled.
- UUID generation and the wall clock. They are parameters.
- Tasks.Progress: computed exactly over the reals, not in 32-bit Float, so
  float rounding is not modelled.
- Tasks.CompletedCount: list sizes are unbounded naturals. Kotlin's 32-bit
  `Int` cannot overflow for any list that fits in memory.
- `isPasswordVisible`, `isLoading`, `errorMessage` and `isAuthenticated`
  of both form states. No handler in the code changes them, so they keep
  their initial values.
- The dashboard, splash and navigation-host screens. They have no logic
  beyond UI and timers.
