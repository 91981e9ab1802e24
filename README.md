# Number pipeline: ring buffer, filters and buffering stage

This project models the sequential core of a small Go program (`main.go`)
that runs numbers read from the console through a chain of concurrent
stages: a filter that drops negative numbers, a filter that keeps only
non-zero multiples of three, and a buffering stage that collects the
survivors in a fixed-capacity ring buffer (capacity 10) and flushes it
every five seconds.

The model has four modules:

- `Wrappers` (`wrappers.dfy`): `Option`, used for the flush result. Go's
  `nil` slice from an empty buffer is `None`; a real batch is `Some`.
- `Filters` (`filters.dfy`): the two filter predicates and their effect on
  a whole stream. Go's `%` truncates toward zero, so `num%3` is modelled
  explicitly as `GoRemByThree`, and the filter is proved to agree with
  divisibility by three. `Filter` is a filter stage run over a stream of
  inputs one after another.
- `RingBuffers` (`ring_buffer.dfy`): the abstract meaning of the buffer
  (`Window`, the last `cap` values; `Pushed`, one push; `PushAll`, a push
  of every element of a sequence) and the class `RingBuffer`. The class
  keeps the Go fields: an `array<int>` `data`, the cursor `pos` (`-1` when
  empty, else the index of the newest item) and `size`. `Push` and `Get`
  change the array and the cursor in place and are proved against the
  ghost view `Contents() == data[..pos+1]`. The left shift
  `copy(rb.data, rb.data[1:])` is the loop method `ShiftLeft`.
- `Pipeline` (`pipeline.dfy`): the pipeline run one number at a time. Each
  input goes through both filters and is pushed if it survives (`Feed`,
  `Fill`); a flush is one call to `Get` (`FillAndFlush`, `FlushTwice`).
  These methods are proved against the function `FlushAfter`. Lemmas say
  what a flush yields from the inputs: the last at most 10 positive
  multiples of three, in arrival order.

Two behaviours of `main.go` around the modelled core are concurrency and
are not modelled:

- The filter stages' sends `output <- num` (main.go:66, 89) are not inside
  a `select` on `done`, so a blocked send does not observe cancellation.
- Only the fill goroutine of the buffering stage closes `output`
  (main.go:108); the flush goroutine may still be sending on it.

## Model

| member | source | states |
|---|---|---|
| `RingBuffers.RingBuffer.constructor` | main.go:26-28 | a new buffer of capacity `size` holds nothing (`pos = -1`) over a fresh array of length `size`; the invariant `-1 <= pos <= size-1` holds |
| `RingBuffers.RingBuffer.Push` | main.go:31-42 | keeps the invariant; when not full, contents become old contents + [v] and the count grows by one, so the earlier slots are unchanged; when full (`pos == size-1`), contents become old contents without the oldest + [v] and the count stays `size`; in both cases the new contents are `Pushed(old, v, size)` |
| `RingBuffers.ShiftLeft` | main.go:36 | `copy(a, a[1:])`: slot `k` gets the old value of slot `k+1` for every `k < len-1`; the last slot keeps its value |
| `RingBuffers.RingBuffer.Get` | main.go:45-54 | on an empty buffer it returns no data and changes nothing; otherwise it returns exactly the held items, oldest first, as a non-empty batch; either way the buffer is empty afterwards and the array is untouched |
| `RingBuffers.Pushed` | main.go:34-41 | one push onto contents of length at most `cap`: append when there is room, drop the oldest then append when full; the result is the window of the last `cap` values of old contents + [v] |
| `RingBuffers.PushAll` | main.go:31-42 | pushing any sequence of values one after another never holds more than `cap` items |
| `RingBuffers.PushAllIsWindow` | main.go:31-42 | pushing `xs` onto contents `c` leaves exactly the last `cap` values of `c + xs` |
| `RingBuffers.PushAllFromEmpty` | main.go:31-42 | pushing any `xs` into an empty buffer leaves exactly the last `min(|xs|, cap)` elements of `xs`, in order |
| `Filters.GoRemByThree` | main.go:88 | Go's truncated `n % 3`: strictly between -3 and 3, zero or of the dividend's sign, and differing from `n` by a multiple of three |
| `Filters.NegativeStageSingleton` | main.go:65-66 | the first stage passes a single number `n` on unchanged when `n >= 0` and forwards nothing otherwise |
| `Filters.NegativeStageMembers` | main.go:63-70 | a value leaves the first stage exactly when it arrived there and is not negative |
| `Filters.PassesMultipleOfThreeFilter` | main.go:88 | the second stage forwards `n` exactly when `n != 0` and `n` is a multiple of three, although it uses Go's truncating remainder |
| `Filters.MultipleOfThreeFilterMeansDivisible` | main.go:88 | the second filter's verdict equals "`n != 0` and `n == 3k` for some integer `k`", both directions |
| `Filters.MultipleOfThreeFilterExamples` | main.go:88 | 0, 1, 2 and 4 are dropped; -3, 3, 6 and -6 are forwarded |
| `Filters.Filter` | main.go:61-74 | a filter stage over a stream forwards no more numbers than it receives |
| `Filters.FilterMembers` | main.go:63-70 | a value is forwarded by a filter stage exactly when it arrived and the stage's predicate accepts it |
| `Filters.FilterIsSubsequence` | main.go:61-74 | a filter stage's output is a subsequence of its input: survivors keep their relative order |
| `Filters.FilterAppend` | main.go:61-74 | filtering a stream in two parts and concatenating gives the filtered whole stream |
| `Filters.StagesCompose` | main.go:190-191 | the negative filter followed by the multiple-of-three filter keeps exactly the positive multiples of three, in arrival order |
| `Pipeline.SurvivorsSnoc` | main.go:63-93 | one more input reaches the buffer exactly when it passes both filters, and is then appended after the earlier survivors |
| `Pipeline.FlushAfter` | main.go:103-131 | a flush after the fill yields no data exactly when no input survived both filters; otherwise a batch of 1 to 10 items |
| `Pipeline.FlushIsPushAll` | main.go:105-125 | the flush result is what pushing every survivor, in order, into an empty buffer of capacity 10 leaves |
| `Pipeline.Feed` | main.go:63-113 | one number runs through the negative filter, then the multiple-of-three filter, and is pushed exactly when it passed both; the buffer invariant is kept |
| `Pipeline.Fill` | main.go:105-117 | the fill loop over a fresh buffer of capacity 10 leaves exactly the last at most 10 survivors of the inputs |
| `Pipeline.FillAndFlush` | main.go:103-131 | filling the buffer with the inputs and then flushing once returns `FlushAfter(inputs)` |
| `Pipeline.FlushTwice` | main.go:125-126 | a second flush right after the first returns no data, which the flush loop skips |
| `Pipeline.FlushIsLastPositiveMultiplesOfThree` | main.go:103-131 | end to end: a flush yields no data exactly when no input is a positive multiple of three; otherwise it is exactly the last `min(k, 10)` of the `k` positive multiples of three among the inputs, in arrival order |
| `Pipeline.ScenarioFiltersThenFlush` | main.go:63-131 | inputs -5, 3, 9, 0, 6 flush as [3, 9, 6] |
| `Pipeline.ScenarioOverflowEvictsOldest` | main.go:15-42 | twelve multiples 3, 6, ..., 36 flush as 9, ..., 36: the two oldest were evicted |

## Left out

- Goroutines, channels, `select`, the `done` cancellation channel and the closing of stage outputs (main.go:57-139, 173-183): these are concurrency and shutdown behaviour. The model runs the stages one number at a time in arrival order.
- The `sync.Mutex` in `Push` and `Get` (main.go:32-33, 46-47): each call is modelled as one atomic step.
- The five-second `time.After` flush timer (main.go:14, 124): a flush is modelled as one call to `Get` at a point the caller chooses.
- `dataSource`, `consumer` and `main` (main.go:142-195): console reading, `strings.EqualFold`, `strconv.Atoi`, printing and the `nextPrompt` handshake are I/O and concurrency. The inputs are a parameter of the pipeline methods.
- The prompt handshake limits which input streams `main.go` can deliver: the source asks for the next number only after the consumer has received an item (main.go:150, 178), so a number the filters drop stalls prompting for good, and after a parse error the source sends on `nextPrompt` from the only goroutine that receives from it (main.go:162), which blocks forever. The pipeline methods and the scenario lemmas take any input stream, including streams the running program cannot deliver.
- Slice aliasing: in Go, `Get` returns a slice that shares `data`, so later pushes can overwrite it. The model's `Get` returns an immutable `seq<int>` copy instead.
- `RingBuffers.RingBuffer.Push` requires `size >= 1`: with capacity 0, Go's `rb.data[1:]` panics, and the program only ever uses capacity 10.
- `RingBuffers.RingBuffer.constructor` requires `size >= 0`: Go's `make` panics on a negative length.
- Go's 64-bit `int` range: numbers are unbounded integers. No operation of the core does arithmetic that could overflow.
