# Avalonia desktop example: controller, motor, NFC readers and view switching

This project models the deterministic core of the LinuxDesktopApp example application and
proves properties of it. The core has five pieces:

- **Throttle simulation** (`Controller`, `controller.dfy`). This is the 60 Hz loop of the controller
  screen.
  - Each tick turns the accelerate and brake buttons into a new speed, with the brake taking
    priority and four speed-dependent acceleration rates.
  - It truncates the speed to whole units and maps them to an angle of servo 2 between 90 and
    180 degrees.
  - It posts to the UI, and drives the servo, only when something changed since the last report.
  - It counts ticks and publishes the count about once a second.
  - Every rate is a multiple of 1/60 of a unit, so the speed is held exactly as a whole number of
    sixtieths in [0, 15300]. The loop is a class with the loop's variables as fields; its outputs
    go to a log.
- **Motor line encoder** (`Motor`, `motor.dfy`). `SetSpeed` writes the ASCII line
  `+W <1|2>,<decimal>\n`, built in a 32-byte buffer, to the serial port. `Open` and `Close` set
  the port's open flag. A parser of such lines is the encoder's partner, for the round trip.
- **Command APDUs** (`Iso7816`, `iso7816.dfy`). This is the short command layout of ISO/IEC 7816-4,
  section 5.1, that both card readers build. A decoder is its partner.
- **Reader plumbing** (`Pcsc`, `pcsc.dfy`). A card's reply to a transmitted command is an oracle
  value: the answer bytes, or a fault that stands for the exception. The module also holds the
  zero-filled receive buffer and the actions taken on the reader and on the insertion monitor.
- **Suica reader** (`SuicaReader`, `suica.dfy`).
  - The two command builders.
  - The response split into data, SW1 and SW2, and the 90 00 success test.
  - The fixed sequence of 24 commands that reads a card, stopping at the first failure, with the
    event raised only when every reply succeeds.
  - The start/stop state of the insertion monitor.
- **FeliCa (S300) reader** (`S300Reader`, `s300.dfy`).
  - The 10-byte polling pseudo-APDU.
  - The status check.
  - IDm and PMm copied from fixed offsets of the receive buffer.
  - The same start/stop state.
- **View switching and button dispatch** (`MainWindow`, `navigation.dfy`).
  - Buttons 0 to 3 raise shell triggers.
  - Buttons 4 and 5 move left or right around a fixed cycle of seven views.
  - The effects on the navigator are returned as values.

`Prelude` (`prelude.dfy`) writes out the C# conventions the model needs: `byte`, 32-bit `int`, the
`(byte)` cast, division truncated toward zero, and zero-filled fresh arrays.

The code has no gear, steering or LED logic and drives only servo 2 from the speed.

## Model

| member | source | states |
|---|---|---|
| Prelude.ToByte | LinuxDesktopApp/Components/Nfc/PaSoRoSuicaReader.cs:185 | `(byte)n` keeps a value in 0..255 and otherwise agrees with n modulo 256 |
| Controller.AccelVelocity | LinuxDesktopApp/Views/Example/ControllerViewModel.cs:100-106 | the acceleration rate is always between the slowest tier (16/60) and the fastest (64/60) |
| Controller.VelocityNeverGrows | LinuxDesktopApp/Views/Example/ControllerViewModel.cs:100-106 | a higher speed never gets a larger acceleration rate |
| Controller.NextSpeed | LinuxDesktopApp/Views/Example/ControllerViewModel.cs:94-112 | one tick keeps the speed in [0, 255]; braking or coasting never raises it; accelerating without the brake never lowers it |
| Controller.BrakingStops | LinuxDesktopApp/Views/Example/ControllerViewModel.cs:94-97 | holding the brake for n ticks gives max(0, speed - n*96/60), whatever the accelerate button says |
| Controller.CoastingStops | LinuxDesktopApp/Views/Example/ControllerViewModel.cs:109-112 | with no button held, n ticks give max(0, speed - n*32/60) |
| Controller.AcceleratingProgresses | LinuxDesktopApp/Views/Example/ControllerViewModel.cs:98-108 | holding accelerate gains at least 16/60 per tick up to the cap of 255, and never passes it |
| Controller.FullThrottleCurve | LinuxDesktopApp/Views/Example/ControllerViewModel.cs:98-108 | full throttle from standstill follows the four tiers exactly: 64/60 per tick up to 128, 48/60 up to 192, 32/60 up to 224, then 16/60 up to the cap |
| Controller.ThrottleTimeline | LinuxDesktopApp/Views/Example/ControllerViewModel.cs:98-108 | full throttle from standstill is at 255 exactly from tick 377 on (about 6.3 seconds at 60 Hz) |
| Controller.WholeSpeed | LinuxDesktopApp/Views/Example/ControllerViewModel.cs:114 | `(int)speed` is the whole part: whole*60 <= speed < whole*60 + 60, and it lies in [0, 255] |
| Controller.ServoAngle | LinuxDesktopApp/Views/Example/ControllerViewModel.cs:127 | every whole speed in [0, 255] maps to an angle in [90, 180] |
| Controller.ServoAngleEnds | LinuxDesktopApp/Views/Example/ControllerViewModel.cs:127 | speed 0 gives 90 degrees and speed 255 gives 180 |
| Controller.ServoAngleMonotone | LinuxDesktopApp/Views/Example/ControllerViewModel.cs:127 | a higher speed never gives a smaller angle |
| Controller.Step | LinuxDesktopApp/Views/Example/ControllerViewModel.cs:89-148 | one tick keeps the loop invariant: speed in range, last reported speed in range, last angle sent is that speed's angle |
| Controller.ReportsOnlyChanges | LinuxDesktopApp/Views/Example/ControllerViewModel.cs:115-137 | the UI is posted to, and the remembered speed and buttons move on, if and only if the whole speed or a button changed; otherwise only the tick count can be posted |
| Controller.ServoOnlyOnNewAngle | LinuxDesktopApp/Views/Example/ControllerViewModel.cs:126-132 | a servo command goes out if and only if the tick reports and its angle differs from the last one sent; it carries the reported speed's angle |
| Controller.FirstReportDrivesServo | LinuxDesktopApp/Views/Example/ControllerViewModel.cs:128-132 | before any angle was sent (-1), the first reporting tick always drives the servo |
| Controller.ButtonChangeKeepsServo | LinuxDesktopApp/Views/Example/ControllerViewModel.cs:127-132 | once an angle was sent, a tick where only a button changes sends no servo command |
| Controller.FpsWindow | LinuxDesktopApp/Views/Example/ControllerViewModel.cs:140-148 | the count rises by one per tick, and is posted and reset to 0 if and only if the stopwatch reads more than 1000 ms |
| Controller.RunKeepsValid | LinuxDesktopApp/Views/Example/ControllerViewModel.cs:87-149 | any run of ticks keeps the invariant, so `(int)speed` always lies in [0, 255] |
| Controller.FpsCountsTicks | LinuxDesktopApp/Views/Example/ControllerViewModel.cs:140-148 | within a window of at most 1000 ms the count equals the number of ticks, and no count is posted |
| Controller.ControlLoop.constructor | LinuxDesktopApp/Views/Example/ControllerViewModel.cs:76-81 | the loop starts at speed 0, last speed 0, last angle -1, both buttons released, count 0 |
| Controller.ControlLoop.UpdateSpeed | LinuxDesktopApp/Views/Example/ControllerViewModel.cs:94-112 | the speed field becomes NextSpeed of the old speed |
| Controller.ControlLoop.ReportChanges | LinuxDesktopApp/Views/Example/ControllerViewModel.cs:115-137 | on a change it posts, sends the servo a new angle if it differs, and remembers the reported values; otherwise it changes nothing |
| Controller.ControlLoop.Tick | LinuxDesktopApp/Views/Example/ControllerViewModel.cs:89-148 | one loop iteration moves the fields to Step's new state and appends exactly Step's outputs |
| Controller.ControlLoop.TickAll | LinuxDesktopApp/Views/Example/ControllerViewModel.cs:87-149 | the timer loop moves the fields to RunTicks's final state and appends all its outputs in order |
| Controller.ControlLoop.StartTimer | LinuxDesktopApp/Views/Example/ControllerViewModel.cs:71-159 | the motor is opened and the gamepad started, the ticks run, and the motor is closed however the ticks end |
| Motor.ChannelByte | LinuxDesktopApp/Components/Motor/MotorController.cs:51 | the channel byte is '2' exactly for Motor2 and '1' exactly for Motor1 |
| Motor.Digits | LinuxDesktopApp/Components/Motor/MotorController.cs:54 | the decimal text of a natural number is non-empty, all digits, with no leading zero |
| Motor.Decimal | LinuxDesktopApp/Components/Motor/MotorController.cs:54 | the formatted integer starts with '-' exactly when it is negative, and holds no newline |
| Motor.DigitsRoundTrip | LinuxDesktopApp/Components/Motor/MotorController.cs:54 | reading the digits back gives the number |
| Motor.DecimalRoundTrip | LinuxDesktopApp/Components/Motor/MotorController.cs:54 | reading the decimal text back gives the signed value |
| Motor.Line | LinuxDesktopApp/Components/Motor/MotorController.cs:48-57 | the line is at least 7 bytes and ends in its only newline |
| Motor.LineRoundTrip | LinuxDesktopApp/Components/Motor/MotorController.cs:48-57 | every line parses back to the channel and value it was written from |
| Motor.LineInjective | LinuxDesktopApp/Components/Motor/MotorController.cs:48-57 | distinct (channel, value) pairs give distinct lines |
| Motor.LineLayout | LinuxDesktopApp/Components/Motor/MotorController.cs:48-59 | a line is `+W `, the channel byte, `,`, the decimal text, `\n`: 3+1+1+len+1 bytes, with its only newline at the end |
| Motor.DigitsLength | LinuxDesktopApp/Components/Motor/MotorController.cs:54 | a number below 10^k has at most k digits |
| Motor.LineFitsBuffer | LinuxDesktopApp/Components/Motor/MotorController.cs:45-54 | for every 32-bit value the text is at most 11 bytes and the line at most 17, within the 32-byte buffer |
| Motor.LongestLine | LinuxDesktopApp/Components/Motor/MotorController.cs:45-54 | the bound is tight: -2147483648 gives a 17-byte line |
| Motor.TryFormat | LinuxDesktopApp/Components/Motor/MotorController.cs:54-55 | the text is written at the position when it fits, and its length is reported; bytes before the position are untouched |
| Motor.WriteHeader | LinuxDesktopApp/Components/Motor/MotorController.cs:48-52 | the buffer starts with `+W `, the channel byte and `,`, and the position is 5 |
| Motor.FormatLine | LinuxDesktopApp/Components/Motor/MotorController.cs:45-57 | the first `pos` bytes of the 32-byte buffer are exactly the line |
| Motor.MotorController.constructor | LinuxDesktopApp/Components/Motor/MotorController.cs:20-24 | a new controller's port is closed and nothing has been written |
| Motor.MotorController.Open | LinuxDesktopApp/Components/Motor/MotorController.cs:31-36 | the port becomes open; nothing is written |
| Motor.MotorController.Close | LinuxDesktopApp/Components/Motor/MotorController.cs:38-41 | the port becomes closed; nothing is written |
| Motor.MotorController.SetSpeed | LinuxDesktopApp/Components/Motor/MotorController.cs:43-65 | on an open port exactly the line is appended to what was written; on a closed port nothing is |
| Iso7816.DataLayout | LinuxDesktopApp/Components/Nfc/PaSoRoSuicaReader.cs:178-188 | a case-3 command has 5+len bytes: cla ins p1 p2, Lc = len mod 256, then the data unchanged |
| Iso7816.LeLayout | LinuxDesktopApp/Components/Nfc/PaSoRoSuicaReader.cs:190-199 | a case-2 command is exactly the five bytes cla ins p1 p2 le |
| Iso7816.RoundTrip | LinuxDesktopApp/Components/Nfc/PaSoRoSuicaReader.cs:178-199 | every case-2 command, and every case-3 command with 1 to 255 data bytes, decodes back to itself |
| Iso7816.EncodeInjective | LinuxDesktopApp/Components/Nfc/PaSoRoSuicaReader.cs:178-199 | within that range distinct commands have distinct bytes |
| Iso7816.EmptyDataIsLeZero | LinuxDesktopApp/Components/Nfc/PaSoRoSuicaReader.cs:178-199 | with no data the case-3 builder gives the same bytes as the case-2 builder with Le 0 |
| Iso7816.LcWraps | LinuxDesktopApp/Components/Nfc/PaSoRoSuicaReader.cs:185 | with 256 data bytes the Lc cast wraps to 0 and the command no longer decodes |
| Pcsc.ReceiveBuffer | LinuxDesktopApp/Components/Nfc/PaSoRoSuicaReader.cs:173-174 | the received bytes sit at the start of the buffer and the rest stays zero |
| Pcsc.Received | LinuxDesktopApp/Components/Nfc/PaSoRoSuicaReader.cs:171-176 | a transmit returns a count exactly when the card answers with bytes that fit the buffer |
| SuicaReader.CreateDataCommand | LinuxDesktopApp/Components/Nfc/PaSoRoSuicaReader.cs:178-188 | the array built index by index is the case-3 encoding of the header and data |
| SuicaReader.CreateLeCommand | LinuxDesktopApp/Components/Nfc/PaSoRoSuicaReader.cs:190-199 | the array is the case-2 encoding with Le = `(byte)le` |
| SuicaReader.SendCommand | LinuxDesktopApp/Components/Nfc/PaSoRoSuicaReader.cs:171-176 | a response holds the 258-byte buffer and a count that never exceeds it |
| SuicaReader.FrameRoundTrip | LinuxDesktopApp/Components/Nfc/PaSoRoSuicaReader.cs:207-222 | an answer of payload + SW1 SW2 splits back into exactly that payload, SW1 and SW2 |
| SuicaReader.ShortResponse | LinuxDesktopApp/Components/Nfc/PaSoRoSuicaReader.cs:207-227 | with fewer than two bytes back the data is empty, SW1 = SW2 = 0, and there is no success |
| SuicaReader.Response.Data | LinuxDesktopApp/Components/Nfc/PaSoRoSuicaReader.cs:207 | the data is a prefix of the buffer, two bytes shorter than what came back, and empty when fewer than two came back |
| SuicaReader.Response.SW1 | LinuxDesktopApp/Components/Nfc/PaSoRoSuicaReader.cs:218-227 | SW1 is the byte right after the data, or 00 when fewer than two bytes came back |
| SuicaReader.Response.SW2 | LinuxDesktopApp/Components/Nfc/PaSoRoSuicaReader.cs:218-227 | SW2 is the byte right after SW1, or 00 when fewer than two bytes came back |
| SuicaReader.Response.IsSuccess | LinuxDesktopApp/Components/Nfc/PaSoRoSuicaReader.cs:230-233 | success if and only if at least two bytes came back and the last two are 90 00 |
| SuicaReader.FirstFailure | LinuxDesktopApp/Components/Nfc/PaSoRoSuicaReader.cs:106-149 | every reply before the index succeeds, and the reply at the index (if any) fails |
| SuicaReader.HistoryBlocks | LinuxDesktopApp/Components/Nfc/PaSoRoSuicaReader.cs:142-156 | n history reads give n data blocks |
| SuicaReader.StopsAt | LinuxDesktopApp/Components/Nfc/PaSoRoSuicaReader.cs:106-149 | when reply k is the first to fail, exactly k+1 commands go out and no event is raised |
| SuicaReader.Exchange | LinuxDesktopApp/Components/Nfc/PaSoRoSuicaReader.cs:171-176 | sending command k appends it to those sent; its response succeeds exactly when the first failure comes later, and otherwise the read ends with what was sent |
| SuicaReader.ReadHead | LinuxDesktopApp/Components/Nfc/PaSoRoSuicaReader.cs:106-138 | the first four commands go on only while replies succeed; on success the IDm and the balance block are the data of replies 0 and 2 |
| SuicaReader.ReadHistory | LinuxDesktopApp/Components/Nfc/PaSoRoSuicaReader.cs:142-156 | the twenty reads stop at the first failure; records come back only when all succeed, as the twenty data blocks |
| SuicaReader.ReadCard | LinuxDesktopApp/Components/Nfc/PaSoRoSuicaReader.cs:104-158 | the commands sent are those up to the first failure, and the event is the one the replies determine |
| SuicaReader.EventIffAllSucceed | LinuxDesktopApp/Components/Nfc/PaSoRoSuicaReader.cs:143-158 | the event is raised if and only if all 24 replies succeed, and then it holds exactly 20 history blocks |
| SuicaReader.SentIsPrefix | LinuxDesktopApp/Components/Nfc/PaSoRoSuicaReader.cs:106-149 | what is sent is always a non-empty prefix of the same 24 commands |
| SuicaReader.CommandOrder | LinuxDesktopApp/Components/Nfc/PaSoRoSuicaReader.cs:106-145 | the commands are FF CA 00 00 00, FF A4 00 01 02 8B 00, FF B0 00 00 00, FF A4 00 01 02 0F 09, then FF B0 00 i 00 for i in 0..19 |
| SuicaReader.CommandsDecode | LinuxDesktopApp/Components/Nfc/PaSoRoSuicaReader.cs:106-145 | every command sent is a well-formed short APDU that decodes back to itself |
| SuicaReader.TraceAlwaysDisconnects | LinuxDesktopApp/Components/Nfc/PaSoRoSuicaReader.cs:99-167 | each card connects first, sends 1 to 24 commands, and disconnects once, last, whether it succeeds, stops or faults |
| SuicaReader.PaSoRiSuicaReader.constructor | LinuxDesktopApp/Components/Nfc/PaSoRoSuicaReader.cs:53-58 | a new reader is not running and has done nothing |
| SuicaReader.PaSoRiSuicaReader.Start | LinuxDesktopApp/Components/Nfc/PaSoRoSuicaReader.cs:66-85 | refused, with nothing changed, when already running or when no reader is listed; otherwise the first reader is monitored and the reader runs |
| SuicaReader.PaSoRiSuicaReader.Stop | LinuxDesktopApp/Components/Nfc/PaSoRoSuicaReader.cs:87-97 | does nothing when idle; otherwise cancels the monitor and stops |
| SuicaReader.PaSoRiSuicaReader.OnCardInserted | LinuxDesktopApp/Components/Nfc/PaSoRoSuicaReader.cs:99-169 | the reader actions are the card's trace, and the event is raised exactly when the read succeeds |
| S300Reader.BuildPollingCommand | LinuxDesktopApp/Components/Nfc/PaSoRoS300Reader.cs:49-54 | the polling frame is exactly 00 FF FF 01 00 |
| S300Reader.BuildRequest | LinuxDesktopApp/Components/Nfc/PaSoRoS300Reader.cs:56-62 | the request is the case-3 encoding of header FF FE 00 00 around the frame |
| S300Reader.PollingRequestBytes | LinuxDesktopApp/Components/Nfc/PaSoRoS300Reader.cs:56-62 | the request is the ten bytes FF FE 00 00 05 00 FF FF 01 00, and decodes back to header and frame |
| S300Reader.TransmitInto | LinuxDesktopApp/Components/Nfc/PaSoRoS300Reader.cs:64-65 | a fitting answer lands at the start of the buffer with its count returned, and the rest of the buffer is untouched; anything else is the exception |
| S300Reader.Accepts | LinuxDesktopApp/Components/Nfc/PaSoRoS300Reader.cs:67-72 | the status check accepts exactly what the Suica reader's success test (SW1 SW2 = 90 00, with 00 00 for fewer than two bytes) accepts on the same buffer and count |
| S300Reader.Detection | LinuxDesktopApp/Components/Nfc/PaSoRoS300Reader.cs:64-79 | a card is detected only from an answer of 2 to 256 bytes, and then its IDm and PMm are eight bytes each |
| S300Reader.CopySlice | LinuxDesktopApp/Components/Nfc/PaSoRoS300Reader.cs:74-77 | the new array holds exactly the bytes of the span copied |
| S300Reader.ReadCard | LinuxDesktopApp/Components/Nfc/PaSoRoS300Reader.cs:49-79 | the request is always the polling request, and the event is the detection the reply determines |
| S300Reader.DetectIffStatus | LinuxDesktopApp/Components/Nfc/PaSoRoS300Reader.cs:64-79 | a card is detected if and only if the answer fits, has at least 2 bytes and ends in 90 00; IDm and PMm are then 8 bytes each |
| S300Reader.FullAnswerIds | LinuxDesktopApp/Components/Nfc/PaSoRoS300Reader.cs:74-77 | for an answer of one byte, IDm, PMm, anything, 90 00, exactly that IDm and PMm come out |
| S300Reader.BareStatusAccepted | LinuxDesktopApp/Components/Nfc/PaSoRoS300Reader.cs:64-79 | the length is not checked: a bare 90 00 is accepted, with IDm and PMm all zeros from the fresh buffer |
| S300Reader.PaSoRiS300Reader.constructor | LinuxDesktopApp/Components/Nfc/PaSoRoS300Reader.cs:29-34 | a new reader is not running and has done nothing |
| S300Reader.PaSoRiS300Reader.Start | LinuxDesktopApp/Components/Nfc/PaSoRoS300Reader.cs:92-111 | refused, with nothing changed, when already running or when no reader is listed; otherwise the first reader is monitored |
| S300Reader.PaSoRiS300Reader.Stop | LinuxDesktopApp/Components/Nfc/PaSoRoS300Reader.cs:113-123 | does nothing when idle; otherwise cancels the monitor and stops |
| S300Reader.PaSoRiS300Reader.OnCardInserted | LinuxDesktopApp/Components/Nfc/PaSoRoS300Reader.cs:42-90 | connect, one polling transmit, and always a disconnect; the event is raised exactly on detection |
| MainWindow.IndexOf | LinuxDesktopApp/MainWindowViewModel.cs:99 | the index is -1 or a position holding the view |
| MainWindow.IndexOfIsPosition | LinuxDesktopApp/MainWindowViewModel.cs:14-23 | the list has no repeats: every listed view is found at its own position, and a view outside it gives -1 |
| MainWindow.NextIndex | LinuxDesktopApp/MainWindowViewModel.cs:100-101 | the new index is in [0, 7): 0 for an unknown view, else one step right or left with wrap-around at both ends |
| MainWindow.WrapIsCSharpRemainder | LinuxDesktopApp/MainWindowViewModel.cs:101 | the wrap-around agrees with C#'s remainder, since the dividend is never negative |
| MainWindow.SwitchTarget | LinuxDesktopApp/MainWindowViewModel.cs:90-104 | there is a target exactly when there is a current view |
| MainWindow.SwitchTargetListed | LinuxDesktopApp/MainWindowViewModel.cs:99-102 | every target is a listed view |
| MainWindow.UnknownViewGoesToDashboard | LinuxDesktopApp/MainWindowViewModel.cs:99-101 | a view not in the list goes to Dashboard in both directions |
| MainWindow.SwitchBack | LinuxDesktopApp/MainWindowViewModel.cs:99-102 | for a listed view, right then left, or left then right, returns to the view it started from |
| MainWindow.SwitchStep | LinuxDesktopApp/MainWindowViewModel.cs:99-102 | one switch from the view at position p goes to the view one place right or left, wrapping from 6 to 0 and from 0 to 6 |
| MainWindow.SwitchesAsSteps | LinuxDesktopApp/MainWindowViewModel.cs:99-102 | n switches from a listed view land on the view n places further round the cycle |
| MainWindow.StepsMove | LinuxDesktopApp/MainWindowViewModel.cs:100-101 | n index steps move n places around the cycle of seven |
| MainWindow.SwitchesCycle | LinuxDesktopApp/MainWindowViewModel.cs:14-23 | seven switches in one direction, or any multiple of seven, return to the start |
| MainWindow.ButtonMapping | LinuxDesktopApp/MainWindowViewModel.cs:62-88 | only a press of keys 0 to 5 acts: 0-3 raise Trigger1-4 in order, 4 switches left, 5 right |
| MainWindow.ButtonsDistinct | LinuxDesktopApp/MainWindowViewModel.cs:66-86 | distinct keys 0 to 5 do distinct things |
| MainWindow.ButtonCommandOf | LinuxDesktopApp/MainWindowViewModel.cs:62-88 | a press of keys 0-3 notifies, a press of key 4 or 5 switches (right exactly for 5), and anything else is ignored |
| MainWindow.ButtonEffect | LinuxDesktopApp/MainWindowViewModel.cs:62-112 | a notification carries the key's trigger, a forward goes to the switch target, and nothing happens exactly on a release, a key above 5, or a switch with no current view |
| MainWindow.SwitchNeedsCurrentView | LinuxDesktopApp/MainWindowViewModel.cs:94-102 | a switch button navigates exactly when there is a current view, and always to a listed view |

## Left out

- Floating point: the speed is an exact count of sixtieths. The rounding of the C# `double`
  constants such as `64d / 60` is not modelled.
- Timers and threads: the periodic timer, `async`/`await`, cancellation and the dispatcher's
  thread hand-off are not modelled.
  - A tick takes the buttons and the stopwatch reading as parameters.
  - Posts to the UI are entries in an output log.
  - A cancellation is the end of the input sequence.
- The gamepad itself, and the axis value it reads but never uses, are not modelled.
- `SetServo` and `ServoChannel` are not part of this model. The servo command is an abstract
  output event.
- Exceptions from `motor.Open`, `gamepad.Start` and `SetServo` are left out. Only the normal and
  cancelled exits of the timer loop are modelled.
- Serial port configuration (the port name and the baud rate of 1150200) and the buffer pool are
  left out.
- Motor.MotorController.SetSpeed: writing to a closed port throws in the source. Here it
  returns false and writes nothing.
- Motor.MotorChannel: only the two named channels are modelled. An out-of-range enum value,
  which the source would also encode as '1', is not.
- PC/SC plumbing: the context, the insertion monitor, `ConnectReader` and `Transmit` are replaced
  by the reply oracle.
  - Connecting is assumed to succeed. In the source a failing `ConnectReader` throws before the
    `try` block, so no disconnect follows.
  - An answer that does not fit the receive buffer is modelled as a fault.
- The Suica event's balance and history records are not decoded. `SuicaLogic.Extract*` is not
  part of this model, so the event carries the raw data blocks those functions receive. Any
  exception they might throw is left out with them.
- The console diagnostics written after Suica commands are left out; they affect nothing
  else.
- `Dispose` of the readers, the motor and the view models is left out: it only releases resources.
- The definitions of `ViewId` and `ShellEvent` are not part of this model.
  - The views are the seven in the list, plus `Menu` as one view outside it.
  - `Navigator.Forward` and `NotifyAsync` are returned as effects, not performed.
- MainWindow.IndexOf: its contract does not say the index is the first match or that -1 means
  absent, because stating that made every proof over the view list too slow to check.
  IndexOfIsPosition gives the exact result for the fixed list instead.
- The QR reader, printing, bitmap generation, application setup, settings and the other view
  models are left out: they are I/O wrappers with no logic of their own.
