# Verification of the V4L2 streaming pair, the DMTIMER interrupt source and the DRM fill

This project models three parts of the repository and proves what they keep over whole runs.

**The V4L2 buffer-streaming protocol.** A fake capture driver (`lkml/v4l2/vid4linux.c`) and the grabber
application (`lkml/v4l2-app/grabber.c`) pass a fixed set of frame buffers between them.

- `FrameFormat.dfy`: the driver's three image-size formulas in 32-bit arithmetic, and `buf_prepare`.
- `FakeVidDriver.dfy`: the active list, the frame thread as atomic steps, as whole turns and as the loop of
  the source, and `stop_streaming` with its closed form. Class `FakeVid` is the code in place.
- `Streaming.dfy`: driver, videobuf2 queue and an arbitrary application composed as a step relation; runs are
  sequences of states and steps in any interleaving, over any number of sessions.
- `KernelList.dfy`, `ActiveLinks.dfy`: the kernel's intrusive list with its next and prev pointers, and the proof
  that the pointers of a run always form the active list of the protocol.
- `GrabberSession.dfy`: runs whose ioctls follow the grabber's order.
- `GrabberScripts.dfy`: what the kernel answers, as scripts: what they mean for frames and calls, and which of them
  let the program come to its end.
- `Grabber.dfy`: the application itself (class `Process`), run against such scripts.
- `EndToEnd.dfy`: a process whose DQBUFs are answered by a run of the protocol, from setup to release.
- `Progress.dfy`: such runs exist, for every number of usable buffers and of frames, and lead a process to its end.
- `Sessions.dfy`: whatever a new device can do, a device at rest after any run can do again.

**The DMTIMER interrupt source** (`lkml/dmtimer/dmtimer.c`, `lkml/dmtimer/irq.c`): `DmTimer.dfy` has the counter,
its registers and the interrupt handler interleaved with the clock; `IrqMask.dfy` the software mask of lines.

**The framebuffer fill** (`lkml/drm-app/drm_app.c`): `FrameFill.dfy`.

`Arithmetic.dfy` and `Wrappers.dfy` hold division lemmas and the optional value.

## Environment

videobuf2 is assumed to do what the V4L2 API specification says in section 3.2 "Streaming I/O (Memory Mapping)":
it passes buffers on in the order queued, serialises ioctls (`vq->lock`), keeps finished buffers in a FIFO, calls
`stop_streaming` only after a start that succeeded, and owns no buffer after STREAMOFF. Before STREAMON queued
buffers wait in videobuf2 and are handed over just before `start_streaming`. Register meanings of the timer are
those of section 20.1 (DMTimer) of the AM335x Technical Reference Manual, SPRUH73; a timer event left pending by
whoever used the timer before the probe is allowed. list_add_tail and list_del store pointers as include/linux/list.h
of the kernel does without CONFIG_DEBUG_LIST. DQBUF returns the index and the payload of the buffer and, for user
pointers, the address and length it was queued with; QUERYBUF returns the size of the plane. What the kernel answers
to ioctl, select, read, mmap, malloc and munmap are script parameters of class `Process`; a finite script that ends
leaves the program waiting, so the theorems cover every finite behaviour of the kernel. A 32-bit mask is a word of
32 booleans. `main` has the streaming calls commented out; the order written there is taken as the intended run.

## Where the code does not do what it says

- A start whose thread cannot be created leaves the buffers on the active list although videobuf2 takes them back
  (`StartKeepsOwnershipIff`); a retry adds nodes that are already linked (`RetryRelinksIff`), and adding a node gives
  a list exactly when it was not on it (`AddTailKeepsListIff`), so that after the second STREAMON there is no list
  (`RetryDestroysList`). The other session theorems are for runs whose starts succeed.
- The thread leaves for good when it once finds the list empty, and the stream then ends after at most n more
  frames (`EarlyExit`; `ImagesEndWithThread` for the process). Exactly when it stays: `ThreadSurvivesIff` for the loop, `LeavesOnEmptyListIff` and
  `ThreadGoneIff` for runs.
- The comment at the head of `dmtimer.c` promises an interrupt every second; the period is one tick longer:
  `InterruptsInSeconds`.
- `dmtimer_remove` writes zero to the set-enable register, which disables nothing, so an interrupt goes on after
  removal exactly when it was enabled before: `RemoveLeavesTimerFiringIff`.
- `dmtimer_irqunmask` ORs the complement: `UnmaskIsRightIff`, `AgreeThroughoutIff`, `SeparatingRun`.
- The error test after `irq_alloc_descs` is on an unsigned number and never true: `AllocChip`.
- The fill indexes by width, not by pitch: `AllPaintedIff`. It does not check the mapping's size: `Fill`.

## Model

| member | source | states |
|---|---|---|
| FakeVidDriver.CompletionShape | lkml/v4l2/vid4linux.c:111-218 | returned statuses are DONE* then ERROR*, each part being exactly the buffers of that status in order |
| FakeVidDriver.ThreadStepKeepsSession | lkml/v4l2/vid4linux.c:80-114 | every atomic step of the thread, with or without a mapped address, keeps the FIFO history and the status order |
| FakeVidDriver.QueueKeepsSession | lkml/v4l2/vid4linux.c:177-190 | queueing at any moment keeps the session history |
| FakeVidDriver.DrainAllKeepsSession | lkml/v4l2/vid4linux.c:215-220 | draining the whole list keeps the session history |
| FakeVidDriver.AcceptedCount | lkml/v4l2/vid4linux.c:80-220 | accepted = returned + in hand + lost + listed, as counts |
| FakeVidDriver.StoppedIsStable | lkml/v4l2/vid4linux.c:81-113 | once the stop flag is up the final outcome does not depend on further thread steps, and each brings the exit nearer |
| FakeVidDriver.TurnOutcome | lkml/v4l2/vid4linux.c:80-114 | the atomic steps from one stop check to the next compose to one four-way case distinction |
| FakeVidDriver.TurnKeepsSession | lkml/v4l2/vid4linux.c:80-114 | a whole turn with arrivals before it keeps the session history |
| FakeVidDriver.TurnConsumes | lkml/v4l2/vid4linux.c:80-114 | a turn completes exactly the next buffer of the stream of listed and arriving buffers and goes on if and only if there is no stop, a buffer and an address; each exit has its exact cause |
| FakeVidDriver.ThreadSurvivesIff | lkml/v4l2/vid4linux.c:80-114 | the thread is still there after k turns if and only if no turn met a stop or a NULL address and more than j buffers were available at every turn j |
| FakeVidDriver.BeatsKeepSession | lkml/v4l2/vid4linux.c:80-114 | the session history holds after any number of turns of any script |
| FakeVidDriver.ThreadOutrunsIdleApplication | lkml/v4l2/vid4linux.c:80-114 | with nothing queued meanwhile the thread returns all listed buffers as DONE and exits for good one turn later |
| FakeVidDriver.FakeVid.constructor | lkml/v4l2/vid4linux.c:380-403 | the zeroed device satisfies the session invariant |
| FakeVidDriver.FakeVid.BufQueue | lkml/v4l2/vid4linux.c:177-190 | appends one buffer, keeps the session, and its emptiness report never fires |
| FakeVidDriver.FakeVid.StartStreaming | lkml/v4l2/vid4linux.c:120-133 | opens a session, or reports failure and leaves the handed-over buffers on the list |
| FakeVidDriver.FakeVid.RunThread | lkml/v4l2/vid4linux.c:80-114 | the thread code, one preemptible piece at a time, is the atomic step of the protocol |
| FakeVidDriver.FakeVid.Turn | lkml/v4l2/vid4linux.c:80-114 | the straight loop body equals the composition of the atomic steps |
| FakeVidDriver.FakeVid.FrameGenerationThread | lkml/v4l2/vid4linux.c:64-117 | for every script: the completed frames are the front of one stream; it outlives the script if and only if every turn goes on, else it leaves at the first that does not, with the cause, return value and remains of that turn; the session history holds |
| FakeVidDriver.FakeVid.JoinThread | lkml/v4l2/vid4linux.c:210-214 | waiting for the thread terminates from every position and leaves the stop outcome unchanged |
| FakeVidDriver.FakeVid.Drain | lkml/v4l2/vid4linux.c:215-220 | every listed buffer comes back once, as ERROR, in list order |
| FakeVidDriver.FakeVid.StopStreaming | lkml/v4l2/vid4linux.c:204-223 | terminates and equals the closed form: at most one last DONE, the rest ERROR, no thread, empty list |
| Streaming.StepInv | lkml/v4l2/vid4linux.c:80-220 | every enabled step but a failed start keeps the invariant of the composed system |
| Streaming.RunInv | lkml/v4l2/vid4linux.c:80-220 | the invariant holds in every state of every run |
| Streaming.OpenInEveryState | lkml/v4l2/vid4linux.c:120-223 | what is possible in every state of every run, after any number of sessions: queueing a held buffer that fits, starting with anything queued, dequeuing the oldest frame, stopping, and the thread moving on |
| Streaming.FifoInEveryState | lkml/v4l2/vid4linux.c:80-220 | in every state accepted = completed ++ hand or lost ++ drained ++ active, statuses DONE* ERROR*, frames taken a prefix of returns |
| Streaming.OwnershipInEveryState | lkml/v4l2/vid4linux.c:84-219 | each buffer in exactly one place, counts sum to n, no buffer twice on the active list or in the done queue |
| Streaming.StartKeepsOwnershipIff | lkml/v4l2/vid4linux.c:120-133 | a start keeps exclusive ownership if and only if the thread was created |
| Streaming.RetryRelinksIff | lkml/v4l2/vid4linux.c:120-133 | a buffer that will be handed over again is on the active list already if and only if the start failed |
| KernelList.AddTailKeepsListIff | lkml/v4l2/vid4linux.c:186 | adding a node leaves a well-formed list if and only if the node was not on it, and then the list with the node appended |
| KernelList.DeleteFirst | lkml/v4l2/vid4linux.c:85-88 | deleting the entry behind the head leaves the links of the rest of the list and none of its own |
| KernelList.RelinkStores | lkml/v4l2/vid4linux.c:186 | the links that adding a linked node again leaves: the last entry points to itself, any other ends the list behind the old last one |
| KernelList.FirstOf | lkml/v4l2/vid4linux.c:85-87 | list_empty is exact, and the node behind the head is the oldest entry |
| ActiveLinks.LinksFollowTheList | lkml/v4l2/vid4linux.c:84-217 | in every state of every run the next and prev pointers are those of exactly the active list of the protocol |
| ActiveLinks.RetryDestroysList | lkml/v4l2/vid4linux.c:120-190 | after a failed start, handing over any one buffer again leaves links that are no list, and so does the whole second STREAMON, whether its thread starts or not |
| Streaming.LostIffNullAddress | lkml/v4l2/vid4linux.c:102-106 | a session loses a buffer if and only if vb2_plane_vaddr gave NULL in it |
| Streaming.AllButTheLostReturn | lkml/v4l2/vid4linux.c:102-220 | after a stop all accepted buffers but the lost one were returned, as often as accepted; the difference is 1 exactly after a NULL address |
| Streaming.StopProgresses | lkml/v4l2/vid4linux.c:204-223 | during a stop some step is enabled and every enabled step decreases the measure |
| Streaming.StopTerminates | lkml/v4l2/vid4linux.c:204-223 | a stop lasts at most the active-list length plus 8 steps in every interleaving |
| Streaming.StopOutcome | lkml/v4l2/vid4linux.c:204-223 | in every run the state after STREAMOFF is the closed form of the state at the request |
| Streaming.NoFrameAfterExit | lkml/v4l2/vid4linux.c:96-106 | once the thread is gone a session completes nothing more |
| Streaming.LeavesOnEmptyListIff | lkml/v4l2/vid4linux.c:96-101 | a looking thread leaves if and only if every buffer is done or with the application |
| Streaming.ThreadGoneIff | lkml/v4l2/vid4linux.c:80-114 | while a session is on, the thread is gone if and only if it once found all buffers done or with the application, or once got a NULL address |
| Streaming.SizesFitInEveryState | lkml/v4l2/vid4linux.c:109-173 | the 128-byte copy fits the plane, the bytesused of a dequeued buffer is one image and fits its plane or the memory it was queued with, and every listed buffer passed buf_prepare |
| GrabberSession.RunAgrees | lkml/v4l2-app/grabber.c:226-272 | the state of a grabber run follows its calls: first round, then one buffer at a time |
| GrabberSession.RoundRobin | lkml/v4l2-app/grabber.c:102-128 | the k-th buffer queued, completed and dequeued is buffer k mod n, in every state of every grabber session |
| GrabberSession.FramesAfterExit | lkml/v4l2-app/grabber.c:175-205 | after the thread left, exactly the done queue can still be dequeued |
| GrabberSession.EarlyExit | lkml/v4l2/vid4linux.c:96-101 | an exit on an empty list finds at least n-1 and at most n buffers done; no completion follows and at most those are dequeued |
| GrabberSession.FramesAreCompletions | lkml/v4l2-app/grabber.c:102-128 | frames seen = DQBUF calls <= completions; queued = n + frames - held, held at most one |
| EndToEnd.FramesAreDqbufCalls | lkml/v4l2-app/grabber.c:108-128 | frame k of the session is DQBUF call number k |
| EndToEnd.DequeuesInTurn | lkml/v4l2-app/grabber.c:108-128 | the DQBUF that is call n + 1 + 2k returns buffer k mod n |
| EndToEnd.QueuedIsOwn | lkml/v4l2-app/grabber.c:132-163 | a user pointer and length travel unchanged through every QBUF and DQBUF |
| EndToEnd.AnswerFits | lkml/v4l2-app/grabber.c:108-163 | the run's answer to DQBUF number k names buffer k mod n as the process knows it, with one image in it that its recorded length holds |
| EndToEnd.AnswerIsRecognised | lkml/v4l2-app/grabber.c:123-157 | no answer of a run is one that the assertions of read_frame refuse |
| EndToEnd.LookupFindsQueued | lkml/v4l2-app/grabber.c:152-157 | a user pointer returned by a run matches exactly one buffer, and the search stops there: the index start_capturing queued it under, k mod n for frame k |
| EndToEnd.ImagesGoRound | lkml/v4l2-app/grabber.c:123-159 | every image processed was found under index k mod n, starts at that buffer, is one frame long and fits it |
| EndToEnd.ImagesEndWithThread | lkml/v4l2/vid4linux.c:96-106 | a process never has more images than the thread completed, and once the thread has left no more than were taken or done by then |
| Progress.EveryCaptureCanBeServed | lkml/v4l2-app/grabber.c:208-272 | for any buffers that hold an image, either streaming method and any number of frames, some run of the driver makes and answers every call from the first QBUF to the return of STREAMOFF |
| Progress.ServableIff | lkml/v4l2/vid4linux.c:159-175 | a capture of any number of frames can be served to its end if and only if every buffer holds an image |
| Sessions.Replay | lkml/v4l2/vid4linux.c:120-223 | every run of a new device can follow any run that has come to rest, step by step, with the same states but for what the first left recorded |
| Sessions.CaptureAgain | lkml/v4l2/vid4linux.c:120-223 | a capture of any number of frames, all calls made and answered, is possible from every state of rest of every run and leads to rest again |
| Sessions.SessionsRepeat | lkml/v4l2/vid4linux.c:120-223 | for any sequence of frame counts one run is made of that many whole captures |
| Sessions.ReadyAgain | lkml/v4l2/vid4linux.c:177-202 | from every state of every run that is not streaming the remaining buffers can be queued and the stream started, with every buffer listed |
| Sessions.AnyQueueStreams | lkml/v4l2/vid4linux.c:80-133 | with whatever is queued the stream can be started and the oldest buffer comes back as the first frame |
| Sessions.ComesToRest | lkml/v4l2/vid4linux.c:204-223 | a device that is not streaming comes to rest by STREAMOFF, whatever is queued |
| Progress.AnsweredNeedsRoom | lkml/v4l2/vid4linux.c:159-175 | one answered frame is enough to show that every buffer holds an image |
| Progress.CaptureCanReturn | lkml/v4l2-app/grabber.c:640-645 | for any such buffers at any addresses and any number of frames there is an environment, answered by a run of the driver, in which the process returns |
| EndToEnd.SameCalls | lkml/v4l2-app/grabber.c:641-643 | a process answered by a run has made exactly the calls of the run, with the same arguments |
| EndToEnd.LoopEndsIdle | lkml/v4l2-app/grabber.c:169-206 | where the frame loop returns the process holds no buffer and the thread completed at least as many frames |
| EndToEnd.CaptureFromDriver | lkml/v4l2-app/grabber.c:640-645 | init to uninit against a run: no assertion fails; in every ending each image is one frame inside buffer k mod n, and no more than the thread completed before it left; it returns if and only if the environment lets it, with frame_count images, everything released and the calls of the run |
| Grabber.Process.Xioctl | lkml/v4l2-app/grabber.c:56-65 | the result is the first answer that is not EINTR, and nothing beyond it is consumed; with none left it waits |
| Grabber.Process.Demand | lkml/v4l2-app/grabber.c:316-341 | an ioctl other than DQBUF: goes on at a success (with two buffers at least where they are mapped), exits at a failure, waits where the script has run out |
| Grabber.Process.DemandFrame | lkml/v4l2-app/grabber.c:108-121 | a DQBUF: goes on at a success and at EAGAIN, exits at any other failure, waits where the script has run out |
| GrabberScripts.Interruptions | lkml/v4l2-app/grabber.c:60-62 | the longest run of EINTR answers |
| Grabber.Process.FindBuffer | lkml/v4l2-app/grabber.c:152-157 | the first match; found if and only if the assertion holds; with distinct addresses and an unchanged buffer, the index it was queued under |
| GrabberScripts.LookupIsUnique | lkml/v4l2-app/grabber.c:152-157 | among buffers at different addresses an unchanged answer matches its own index and no other |
| Grabber.Process.AcceptFrame | lkml/v4l2-app/grabber.c:123-159 | the assertion fails if and only if the index is none of the buffers, or no buffer has the address and length; otherwise the image is processed |
| Grabber.Process.TakeFrame | lkml/v4l2-app/grabber.c:103-159 | one DQBUF, one image as its answer describes; EAGAIN changes nothing; the assertion fails only on an answer that names no buffer |
| Grabber.Process.StreamFrame | lkml/v4l2-app/grabber.c:102-163 | a frame is a DQBUF and the QBUF of what it returned, each using up one successful answer, and one image; in every ending at most one image more |
| Grabber.Process.ReadFrame | lkml/v4l2-app/grabber.c:77-167 | the same for the three io methods; a read gives a frame, goes on without one exactly at EAGAIN, exits at any other failure, waits where the script has run out |
| GrabberScripts.ReadCall | lkml/v4l2-app/grabber.c:82-97 | what a script must hold for a read: after any EAGAINs, one attempt of the loop each, a success; any other failure never serves |
| GrabberScripts.ReadsServeIff | lkml/v4l2-app/grabber.c:82-97 | a script serves r reads if and only if some front of it holds r successes and EAGAINs only |
| GrabberScripts.WakesIff | lkml/v4l2-app/grabber.c:188-199 | select wakes the loop r times if and only if some front of its script holds r ready answers and EINTRs only |
| Grabber.Process.Select | lkml/v4l2-app/grabber.c:188-199 | ready, goes on at EINTR, exits at a timeout and at any other error, waits where the script has run out |
| Grabber.Process.AwaitFrame | lkml/v4l2-app/grabber.c:176-204 | one frame; ready answers = 1 + EAGAINs |
| Grabber.Process.Mainloop | lkml/v4l2-app/grabber.c:169-206 | if it returns: exactly frame_count images (as unsigned int), all DQBUFs paired with QBUFs, select answers balance frames and EAGAINs; it stays on course if and only if the scripts do; in every ending each image is what the answer to its DQBUF describes, and an assertion failed only on such an answer |
| GrabberScripts.FrameCall | lkml/v4l2-app/grabber.c:108-125 | what a script must hold at a DQBUF: after any EINTRs a recognised buffer or an EAGAIN, one attempt of the loop each |
| GrabberScripts.PlainCall | lkml/v4l2-app/grabber.c:127-128 | what it must hold at any other call: after any EINTRs a success |
| GrabberScripts.PairedExtend | lkml/v4l2-app/grabber.c:175-205 | call logs of frames concatenate |
| GrabberScripts.ImagesExtend | lkml/v4l2-app/grabber.c:175-205 | image logs of frames concatenate |
| Grabber.Process.StartCapturing | lkml/v4l2-app/grabber.c:226-272 | queues buffers 0..n-1 in order, with address and length for user pointers, and starts the stream; or exits, exactly when a call fails |
| Grabber.Process.StopCapturing | lkml/v4l2-app/grabber.c:208-224 | one STREAMOFF when streaming |
| GrabberScripts.CaptureIsGrabberOrder | lkml/v4l2-app/grabber.c:641-643 | start, paired frames and stop are exactly the order of calls of the session theorems |
| Grabber.Process.InitRead | lkml/v4l2-app/grabber.c:298-314 | a table of one entry and one buffer of the image size at the granted address |
| Grabber.Process.InitMmap | lkml/v4l2-app/grabber.c:316-372 | as many buffers as REQBUFS granted, at least two, each as long as its QUERYBUF says and where its mmap put it, all distinct; returns if and only if all of these succeed |
| Grabber.Process.InitUserp | lkml/v4l2-app/grabber.c:374-410 | a table of four entries and four buffers of the image size whatever was granted, where malloc put them; returns if and only if REQBUFS and the five allocations succeed |
| Grabber.Process.Acquire | lkml/v4l2-app/grabber.c:344-371 | an allocation or mapping: new memory at the granted address, exit at a failure, waiting where the script has run out |
| Grabber.Process.Unmap | lkml/v4l2-app/grabber.c:284-286 | a mapped buffer: exit at a munmap that fails |
| Grabber.Process.ReleaseBuffers | lkml/v4l2-app/grabber.c:283-292 | releases the recorded start and length of each, in order, never twice |
| Grabber.Process.UninitDevice | lkml/v4l2-app/grabber.c:274-296 | nothing acquired stays outstanding; each released once; returns if and only if every munmap succeeds |
| Grabber.Process.Capture | lkml/v4l2-app/grabber.c:641-643 | returns if and only if the scripts carry it, with frame_count images and a complete grabber session; in every ending image k is what the answer to call n + 1 + 2k describes; an assertion failed only on a DQBUF answer that names no buffer |
| Grabber.Process.CaptureRun | lkml/v4l2-app/grabber.c:640-645 | the same from init to uninit, for the buffers and answers given at the start: it returns if and only if the environment lets it, and then all mappings and allocations are given back; it has exited if and only if the last answer is one to exit at, no answer before being one, and it waits only where a script has run out |
| FrameFormat.LineLength | lkml/v4l2/vid4linux.c:315-316 | the shifted line length is the byte count modulo 2^29 |
| FrameFormat.SizeFormulasAgreeIff | lkml/v4l2/vid4linux.c:165-318 | over all widths, heights and pixel sizes, most of which the driver cannot hold: reported size = payload size if and only if 8 divides height * (width*pixelsize div 2^29) |
| FrameFormat.SizeFormulasWithoutWrap | lkml/v4l2/vid4linux.c:165-318 | without wrap both are width*height*pixelsize |
| FrameFormat.SizeFormulasCanDisagree | lkml/v4l2/vid4linux.c:165-318 | that condition is not always true: a format, none the driver can hold, for which the two expressions differ |
| FrameFormat.DeviceFormat.constructor | lkml/v4l2/vid4linux.c:386-389 | 640 by 480, three bytes and 24 bits a pixel |
| FrameFormat.DeviceFormat.GetFormat | lkml/v4l2/vid4linux.c:304-325 | 640 by 480 with 1920 bytes a line; the reported size is the queue_setup size and the payload size |
| FrameFormat.DeviceFormat.SetFormat | lkml/v4l2/vid4linux.c:326-333 | always -1, format unchanged |
| FrameFormat.DeviceFormat.BufPrepare | lkml/v4l2/vid4linux.c:159-175 | accepts exactly the planes that hold the image; the payload and the thread's copy then fit |
| DmTimer.TimerClosedForm | lkml/dmtimer/dmtimer.c:231-238 | counter, overflow count and pending bit after any number of ticks, for any reload value |
| DmTimer.ProbeProgramsTimer | lkml/dmtimer/dmtimer.c:231-238 | from any register state the probe leaves a timer of period 24,000,001 with its interrupt on |
| DmTimer.OverflowTimes | lkml/dmtimer/dmtimer.c:231-238 | overflows after t ticks are t div 24,000,001; the k-th comes exactly at tick k * 24,000,001 |
| DmTimer.InterruptsInSeconds | lkml/dmtimer/dmtimer.c:1-3 | k periods exceed k seconds by k ticks; the exact number of interrupts in s seconds |
| DmTimer.RemoveLeavesTimerFiringIff | lkml/dmtimer/dmtimer.c:252-267 | after removal an enabled interrupt comes up again at some time if and only if it was enabled before |
| DmTimer.RunInv | lkml/dmtimer/dmtimer.c:270-289 | the handler/clock invariant in every interleaving |
| DmTimer.InterruptAccounting | lkml/dmtimer/dmtimer.c:276-289 | elapsed periods + an event pending at the probe = clears + pending + coalesced; the interrupt is on whenever the handler is idle, so no pending event is stuck |
| DmTimer.HandlerFinishes | lkml/dmtimer/dmtimer.c:278-283 | in every state of every run the remaining writes of the handler are possible and lead to an idle handler with one more run, its interrupt on and nothing pending but an overflow after the clear |
| DmTimer.HandlerRunsAsCoded | lkml/dmtimer/dmtimer.c:278-283 | however many ticks fall between the writes of a handler entered in a run, it goes through, with the registers that TimerBlock.IrqHandler computes |
| DmTimer.HandlerClosedForm | lkml/dmtimer/dmtimer.c:278-283 | those registers in closed form |
| DmTimer.NextEventIsHandled | lkml/dmtimer/dmtimer.c:272-289 | from every idle state of every run the next event comes within a period, enters the handler and is handled to the end |
| DmTimer.ServedWithoutBound | lkml/dmtimer/dmtimer.c:272-289 | there is no bound on the handler runs of a run |
| DmTimer.CoalescedIff | lkml/dmtimer/dmtimer.c:276-289 | events coalesce if and only if some overflow precedes the clear of the last |
| DmTimer.TimelyHandling | lkml/dmtimer/dmtimer.c:276-289 | with latency below a period there is one handler run per elapsed period, and one for an event pending at the probe |
| DmTimer.TimerBlock.ProgramTimer | lkml/dmtimer/dmtimer.c:231-238 | the four writes in order program the timer |
| DmTimer.TimerBlock.DisableAndClear | lkml/dmtimer/dmtimer.c:278-281 | registers after disable and clear with ticks between |
| DmTimer.TimerBlock.Reenable | lkml/dmtimer/dmtimer.c:282-283 | registers after the enable; pending exactly if an overflow fell in the ticks |
| DmTimer.TimerBlock.IrqHandler | lkml/dmtimer/dmtimer.c:272-289 | whatever ticks fall between the writes: the registers of the closed form, interrupt on again, pending exactly if an overflow came after the clear |
| IrqMask.CodedMaskHistory | lkml/dmtimer/irq.c:14-30 | closed form of each bit after any history: raised by another line's unmask and not masked since |
| IrqMask.IntendedMaskHistory | lkml/dmtimer/irq.c:14-30 | the same for setting the line's own bit |
| IrqMask.IntendedRefinesSet | lkml/dmtimer/irq.c:14-30 | the intended mask is the set of enabled lines |
| IrqMask.UnmaskIsRightIff | lkml/dmtimer/irq.c:23-30 | one unmask call is right if and only if all lines are already enabled |
| IrqMask.UnmaskingALineAloneNeverEnablesIt | lkml/dmtimer/irq.c:23-30 | a line whose unmask calls are the only ones is never enabled |
| IrqMask.AgreeThroughoutIff | lkml/dmtimer/irq.c:14-30 | from the zeroed mask, code and intention agree throughout a history if and only if it unmasks nothing |
| IrqMask.SeparatingRun | lkml/dmtimer/irq.c:28 | unmasking line 2 enables every line but line 2 |
| IrqMask.IrqChip.IrqMask | lkml/dmtimer/irq.c:14-20 | clears the line's bit and no other |
| IrqMask.IrqChip.IrqUnmask | lkml/dmtimer/irq.c:23-30 | leaves the line's bit and sets all others |
| IrqMask.IrqChip.AllocChip | lkml/dmtimer/irq.c:32-54 | never reports a failure; sets up lines base to base + 3, modulo 2^32, for any answer |
| IrqMask.IrqChip.GetIrq | lkml/dmtimer/irq.c:69-73 | base plus the nested number as an int, modulo 2^32; numbers 0 to 3 name the lines that were set up |
| FrameFill.Fill | lkml/drm-app/drm_app.c:298-303 | stores to words 0, 1, .. in order, each once, up to w*h; outside the mapping if and only if it is shorter than that; no other word changes; the 64-bit index does not wrap |
| FrameFill.MappingHoldsFill | lkml/drm-app/drm_app.c:203-233 | a dumb buffer with pitch >= 4w and size >= pitch*h holds all writes |
| FrameFill.PaintedIff | lkml/drm-app/drm_app.c:299-303 | a pixel's word, by pitch, is among the stores if and only if y * (pitch/4) + x < w*h |
| FrameFill.AllPaintedIff | lkml/drm-app/drm_app.c:299-303 | the stores cover all visible pixels if and only if pitch = 4 * width or there is at most one line or nothing to paint |
| FrameFill.PaintedIsPrefix | lkml/drm-app/drm_app.c:299-303 | the pixels covered by the stores are a prefix in reading order |
| FrameFill.RowPaintedIff | lkml/drm-app/drm_app.c:299-303 | the stores cover a row if and only if its last pixel is reached |

## Left out

- FakeVidDriver.FakeVid.JoinThread: assumes that kthread_stop returns at once for a thread that has returned; the life time of its task structure belongs to kthread. The sessions in which that matters are exactly those of `ThreadGoneIff`.
- FakeVidDriver.FakeVid.StopStreaming: the same assumption.
- Streaming.RunInv: for runs whose thread creation succeeds; what a failed start breaks is stated separately.
- videobuf2, the V4L2 core, kthread, the IRQ core and DRM: only the contracts under "Environment".
- STREAMON with nothing queued, where videobuf2 defers the start to the first QBUF: the same as queueing first.
- read() emulation inside videobuf2 and the contents of images: a read either answers or fails.
- QUERYCAP, cropping, option parsing, open and close of the device: plumbing without evolving state.
- The 500 repaint passes, the connector scan and the hard-coded DRM ids: repetition of the fill and fixed calls.
- Clock-gate writes of the probe and of the handler, resource claims, the tasklet and the nested handler: fixed calls with no state of their own.
- Real time (the 200 ms sleep, the 2 s select): a step or an answer that may come at any moment; only timer ticks are counted.
- epm.c, gpio.c, fb_pl111.c, ehrpwm.c, mmap, netfilter, network, vlan-app and ldm: call sequences into unseen kernel services, logging and one-branch switches.
- Code under DEBUG, SINGLE and `#if 0`.
