# Snake engine and account rules, modelled in Dafny

This project models the two cores of a small web application.

- The browser snake game in `static/snake.js`. The game's module-level variables are the
  fields of one object (`SnakeGame.Game`). Its functions and event handlers are the methods
  of that object: `step`, `spawnFood`, `resetGame`, `resizeCanvas`, `startLoop`, `gameOver`,
  the key, swipe and button handlers, the sliders, start, pause, restart and window resize.
  The arithmetic inside them is a set of pure functions (`SnakeRules`): the
  reverse-direction test, the wraparound move, the board geometry, the tick interval,
  food placement and the key and swipe mappings.
- The account rules of the Flask server in `app.py`:
  - the password policy (`validate_password`) and the password generator
    (`auto_generate_password`), with the signup field checks (`AccountRules`);
  - the per-name login lockout counter, the one-time-code store and the reset-token store
    (`AuthServer`). Each handler is a pure step function on a snapshot of the stores. A
    `Server` object performs the same dictionary updates in place, and each of its methods
    is proved to agree with its step function.

The browser's interval scheduler is modelled as part of the game state: a map of the armed
repeating timers, by handle, with their periods. `startLoop` and `gameOver` are specified
by what they leave armed. The invariant is that exactly the held timer is armed. Between
events, a timer is held exactly while the game runs.

Randomness, clocks and generated identifiers are parameters:
- `Math.random` is a sequence of drawn cells;
- `random.choice`, `random.shuffle` and `secrets.randbelow` take natural-number picks,
  reduced into range;
- the four characters `random.choices` returns are a string argument, required to be four
  ASCII letters or digits (`AccountRules.IsRandomPart`);
- `datetime.utcnow()` is an integer count of microseconds;
- `secrets.token_urlsafe` is a string argument.

The MySQL `users` table is a sequence of rows. A lookup returns the first matching row.
Stored passwords are kept as plain text. Password verification is equality, which is what
`pbkdf2_sha256.verify` decides for a hash made from the same password.

Two behaviours of the game code worth knowing:
- A window resize recomputes the geometry but does not reset the snake, food or score
  (`static/snake.js:339-347`). Only the density slider, start and restart reset.
- When food placement gives up after 2001 draws, `food` keeps its previous value
  (`static/snake.js:132-143`); it is not cleared. After a meal, that previous value is the
  cell the head just took.

Properties the code has that are worth knowing:
- A generated password always holds one of the required capitals. It does not always pass
  the policy that a typed password must pass, because the shuffle can split the two
  Aadhar digits apart (`AccountRules.GeneratedMayFailPolicy`).
- The lockout message sends the user to the reset flow. That flow never touches the login
  counter, so a locked-out name stays locked out after its password is reset
  (`AuthServer.LockoutOutlivesReset`).

## Model

| member | source | states |
|---|---|---|
| SnakeRules.ResolveDir | static/snake.js:183-189 | The adopted direction is never the reverse of the current one; a pending direction that is not a reversal is adopted, and a reversal keeps the current direction. |
| SnakeRules.Wrap | static/snake.js:197-200 | The result is always on the board; for a coordinate at most one step off the board it is the coordinate modulo the board size, so leaving one edge re-enters at the opposite one. |
| SnakeRules.NextHead | static/snake.js:191-200 | The next head is on the board, and from a head on the board it is the neighbour in the chosen direction taken modulo the board size. |
| SnakeRules.WrapAtEdges | static/snake.js:197-200 | Leaving by the left, right, top or bottom edge re-enters at column cols-1, column 0, row rows-1 or row 0. |
| SnakeRules.MoveKeepsDistinct | static/snake.js:203-219 | A new head that is not on the body, added in front, keeps every cell distinct, with or without dropping the tail. |
| SnakeRules.MoveKeepsBodyValid | static/snake.js:209-219 | As above, and a body on the board stays on the board. |
| SnakeRules.ComputeGeometry | static/snake.js:108-116 | cols equals the density; rows is the floor of height times cols over width, raised to at least 10; cellPx is the floor of width over cols. The floors are stated as bracketing inequalities. |
| SnakeRules.StartCell | static/snake.js:119 | The starting cell (cols div 3, rows div 2) lies on the board. |
| SnakeRules.TickInterval | static/snake.js:226 | The interval is never below 20 ms and is 300 - 12*speed whenever that is at least 20. |
| SnakeRules.TickIntervalMonotone | static/snake.js:226 | A higher speed never gives a longer interval. |
| SnakeRules.FirstFree | static/snake.js:132-142 | The index found is the first draw that is off the body; no index means every draw is on the body. |
| SnakeRules.SpawnedFoodSpec | static/snake.js:132-143 | If a free cell appears within 2001 draws, the food is the first such draw and is off the body; otherwise food keeps its previous value. |
| SnakeRules.SpawnedFoodPlacement | static/snake.js:132-143 | Food placed from on-board draws is on the board and off the snake. |
| SnakeRules.KeyIntentIgnoresCase | static/snake.js:244-249 | The direction a key selects does not depend on the key's letter case. |
| SnakeRules.SwipeIntent | static/snake.js:262-273 | A swipe sets no direction exactly when both offsets are within 20 px; each direction implies its offset passes the threshold and dominates the other, with ties going to the vertical axis. |
| SnakeGame.Game.constructor | static/snake.js:27-38 | Module initialisation plus `initUI`: the settings are read, the geometry is computed, and the game is reset with no timer armed and not running. |
| SnakeGame.Game.ResizeCanvas | static/snake.js:108-116 | The new geometry is ComputeGeometry of the density and canvas size; nothing else changes, and the object invariant is kept. |
| SnakeGame.Game.SpawnFood | static/snake.js:132-143 | The loop leaves food equal to SpawnedFood of the draws, the snake and the previous food. |
| SnakeGame.Game.ResetGame | static/snake.js:118-130 | A one-cell snake at the start cell heading right, food placed afresh, score 0, unpaused; the timer is cleared, and re-armed only for a running game when `initial` is false. |
| SnakeGame.Game.ClearAndRestart | static/snake.js:125-128 | Clearing the held timer and optionally starting the loop leaves no timer, or exactly one armed at the speed's interval. |
| SnakeGame.Game.StopTimer | static/snake.js:236 | Clearing leaves no timer held and nothing armed. |
| SnakeGame.Game.StartLoop | static/snake.js:224-232 | The previous timer is cancelled and exactly one new timer is armed, with a fresh handle and the speed's interval. |
| SnakeGame.Game.GameOver | static/snake.js:234-241 | The game stops running and no timer is left armed. |
| SnakeGame.Game.Step | static/snake.js:181-222 | Paused: nothing changes. Otherwise: the direction is resolved; a head landing on the body (tail included) ends the game with snake, score and food unchanged; eating grows the snake by the new head, adds 1 to the score and places food; any other move shifts the snake by one cell. Score never decreases, the cells stay distinct, the loop stays consistent, and the board bounds are kept. |
| SnakeGame.Game.Advance | static/snake.js:209-219 | Unshift then either eat (score + 1, new food) or pop the tail, keeping the cells distinct. |
| SnakeGame.Game.KeyDown | static/snake.js:244-253 | Arrow keys and W/A/S/D in either case set the pending direction; other keys leave it; the space key toggles pause. |
| SnakeGame.Game.TouchStart | static/snake.js:257-261 | Records the touch origin. |
| SnakeGame.Game.TouchEnd | static/snake.js:262-273 | The pending direction becomes the swipe's direction, if it has one. |
| SnakeGame.Game.PressDirection | static/snake.js:276-284 | An on-screen button overwrites the pending direction. |
| SnakeGame.Game.SetSpeed | static/snake.js:287-291 | A running game re-arms exactly one timer at the new interval; the game state is kept. |
| SnakeGame.Game.SetDensity | static/snake.js:292-297 | New density and geometry, then a reset: one-cell snake heading right with right pending, respawned food, score 0, unpaused; the speed and running flag are kept, and a running game has exactly one timer armed at its interval. |
| SnakeGame.Game.Start | static/snake.js:299-310 | A stopped game reads both sliders, recomputes the geometry, resets (snake, directions, food, score) and runs with one timer armed at the new speed; a running game is only unpaused and every other field is unchanged. |
| SnakeGame.Game.TogglePause | static/snake.js:312-315 | Toggles pause. |
| SnakeGame.Game.Restart | static/snake.js:317-333 | A fresh running, unpaused game with the reset's snake, directions, food and score, geometry recomputed, density and speed not re-read, and exactly one timer armed at the current interval. |
| SnakeGame.Game.WindowResize | static/snake.js:339-347 | Recomputes the geometry without resetting the game. |
| Text.LowerStrIdempotent | static/snake.js:245 | Lower-casing twice is lower-casing once. |
| Text.ContainsIffOccurs | app.py:60-63 | Python's substring test holds exactly when the piece occurs at some position. |
| Text.WordsSpec | app.py:105-110 | `str.split()` yields non-empty words without whitespace whose concatenation is the input with the whitespace removed; there are as many words as word starts, and the `k`-th word is the whole run of non-whitespace at the `k`-th word start, so both the two-word check and `parts[-1]` are fixed. |
| Text.WordCount | app.py:105-106 | The number of words equals the number of positions holding a non-space character at the start or after whitespace. |
| Text.DecimalRoundTrip | app.py:217 | The decimal text of a number reads back as that number. |
| Text.DecimalSixDigits | app.py:217 | A number from 100000 to 999999 has six decimal digits. |
| AccountRules.ValidatePassword | app.py:48-66 | Accepted exactly when the password holds a required capital and both two-digit suffixes; the checks fail in the source's order, each carrying the source's payload. |
| AccountRules.VerdictMessage | app.py:57-66 | The message is "OK" exactly for an accepted password. |
| AccountRules.ShufflePermutes | app.py:82-84 | The shuffle keeps the length and the multiset of characters. |
| AccountRules.AutoGeneratePassword | app.py:72-84 | The result is a permutation of one required capital, both two-digit suffixes and four random characters; it has 9 characters when both numbers have at least two digits. |
| AccountRules.GeneratedHasCapital | app.py:72-84 | A generated password always holds one of the required capitals. |
| AccountRules.ShuffleSwapsFront | app.py:83 | Draws that pick the last position at every level but the final one swap only the first two characters. |
| AccountRules.GeneratedMayFailPolicy | app.py:48-84 | With last name "Rao", Aadhar ending in 12 and the given draws, the generated password is rejected for missing the Aadhar digits. |
| AccountRules.CheckSignupFields | app.py:105-118 | Passes exactly when the name has two words and the Aadhar and phone have 12 and 10 digits; failures come in the source's order; the last name is the last word and is non-empty. |
| AccountRules.Signup | app.py:98-143 | Field failures give their message; with the fields passing, a typed password is registered exactly when it passes the policy and is otherwise refused with the policy's message; a generated one is always registered and the stored secret is `auto_generate_password`'s result for the last name and both numbers (9 characters, with a capital); the emoji index is below 7. |
| AuthServer.FirstWhere | app.py:161-163 | The row found is the first holding the value in the chosen column (name at login, email at forgot/reset); none means no row holds it. |
| AuthServer.SetSecretByEmail | app.py:308 | Every row with the email gets the new password; every other row is unchanged. |
| AuthServer.OtpCode | app.py:217 | The code is six digits and reads back as the draw reduced into 100000..999999. |
| AuthServer.SignupStep | app.py:134-136 | A registered account is appended to the table; a refusal changes nothing. |
| AuthServer.LoginStep | app.py:157-184 | Unknown name: nothing changes. A counter at 3: refused without checking the password, nothing changes. Right password: the counter becomes 0. Wrong password: the counter goes up by 1 and the attempts left are 3 minus it. Counters stay within 0..3. |
| AuthServer.LoginKeepsValid | app.py:171-184 | Login keeps every counter within 0..3, so the attempts left are never negative. |
| AuthServer.ThreeStrikes | app.py:171-184 | From a fresh counter, three wrong passwords report 2, 1 and 0 attempts left; then even the right password is refused. |
| AuthServer.ForgotStep | app.py:201-221 | An unknown email changes nothing; a known one gets a six-digit code that expires in 5 minutes and replaces any earlier code. |
| AuthServer.ForgotKeepsValid | app.py:217-221 | Every stored code stays a six-digit code. |
| AuthServer.VerifyStep | app.py:246-269 | A code is accepted exactly when it exists, has not expired and matches. An expired code is removed; a wrong code is kept; an accepted code is removed and a reset token expiring in 10 minutes is added. |
| AuthServer.MailedCodeAccepted | app.py:217-269 | The mailed code, entered within five minutes, is accepted. |
| AuthServer.MailedCodeExpires | app.py:220-258 | After five minutes the code is refused as expired and removed. |
| AuthServer.OtpSingleUse | app.py:249-267 | After a code is accepted, a second attempt finds no code. |
| AuthServer.AcceptedTokenOpensForm | app.py:265-289 | The token from an accepted code opens the reset form for ten minutes. |
| AuthServer.LastWord | app.py:294 | The last word of a stored name, when there is one, is non-empty. |
| AuthServer.SubmitStep | app.py:292-318 | A missing row or an empty name fails with nothing changed. A typed password is accepted exactly when the policy accepts it; a refused one keeps the token and carries the policy's message. A generated password is `auto_generate_password`'s result for the row's last name and numbers, with a required capital. Success updates every row with the email and spends the token. |
| AuthServer.ResetStep | app.py:276-318 | An unknown token is refused; an expired one is removed; a live one shows the form on a GET and goes to the POST half otherwise. Counters and codes are never touched. |
| AuthServer.SetSecretKeepsNames | app.py:308 | Updating passwords never changes which row a name finds first. |
| AuthServer.LockoutOutlivesReset | app.py:171-176 | A locked-out name stays locked out after any reset request, whatever password it then tries. |
| AuthServer.LoginAfterReset | app.py:179-180 | After a successful reset, a name whose first row has the reset email, and which is not locked out, logs in with the new password. |
| AuthServer.TokenSingleUse | app.py:278-311 | A token that completed a reset is unknown afterwards. |
| AuthServer.Server.constructor | app.py:39-40 | The server starts with empty stores. |
| AuthServer.Server.SignUp | app.py:98-143 | Agrees with SignupStep and keeps the store invariant. |
| AuthServer.Server.Login | app.py:157-184 | Agrees with LoginStep and keeps the store invariant. |
| AuthServer.Server.ForgotPassword | app.py:201-224 | Agrees with ForgotStep and keeps the store invariant. |
| AuthServer.Server.VerifyOtp | app.py:246-269 | Agrees with VerifyStep and keeps the store invariant. |
| AuthServer.Server.ResetPassword | app.py:276-318 | Agrees with ResetStep and keeps the store invariant. |
| AuthServer.Server.Submit | app.py:292-318 | Agrees with SubmitStep and keeps the store invariant. |

## Left out

- Drawing on the canvas, the score text, the modal dialog, button labels and audio playback
  (`draw`, `playSound`, the audio unlock) are left out. They change no modelled state.
- The real timing of `setInterval` is left out: when ticks fire is not modelled, only which
  timers are armed and with what period. A tick is a call to `Step`.
- `Math.random` is not modelled as a distribution. Each draw is given as a cell, so
  uniformity is not stated.
- The geometry uses integer canvas sizes, so floating-point rounding in
  `Math.floor(height / width * cols)` is not modelled. The model floors the exact quotient.
- A zero-width canvas is excluded: `ResizeCanvas` and its callers require a width of at
  least 1. The source would divide by zero there.
- Touch coordinates are integers rather than floating-point pixel positions.
- `parseInt` of the slider values is not modelled. The sliders deliver integers, and the
  density is at least 1.
- Case mapping (`toLowerCase`, `str.lower`, `str.upper`) and `str.isdigit` cover ASCII only.
  Python's full Unicode tables are not modelled.
- `validate_password` returns a pair `(ok, message)`. It is modelled as a verdict plus a
  message function.
- Flask routing, templates, `flash`, redirects and the GET form pages are left out. Only
  their state changes and outcomes are modelled.
- MySQL is a sequence of rows. Its row order for `fetchone` is taken to be insertion order,
  and commits and connection failures are not modelled.
- `FirstWhere` compares names and emails by exact string equality. The database compares
  `WHERE name=%s` and `WHERE email=%s` under the column's collation, which may ignore case,
  while `login_attempts` is keyed by the name exactly as typed. Under a case-insensitive
  collation, a case variant of a locked-out name finds the same row with a fresh counter of
  its own; the model, with exact equality, does not capture that way around the lockout.
- Sending the code by mail (`mail.send`) is left out. The outcome carries the code and
  user name that the mail would contain.
- `pbkdf2_sha256` hashing and salting are not modelled. The stored secret is the password.
- The emoji reward is its index into the seven-element list, not the glyph.
- `verify_otp_page` reads the clock twice, once for the expiry check and once for the
  token's expiry. The model uses one reading for both.
- A reset that finds no row for the token's email, or a stored name with no words, ends
  the request with an error in the source. The model reports `ServerError` and changes
  nothing, which is what the source leaves behind.
- Environment loading, the Flask secret key and the snake page route are left out.
