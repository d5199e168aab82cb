# go-passthrough: a Dafny model of the consume–invoke–acknowledge core

go-passthrough is a bridge between an AMQP broker and a command-line program.
For every message delivered on a configured queue it runs the configured
executable, feeds the message body to the process's standard input, and
acknowledges the message when the process succeeds. Two counters, `ok` and
`errors`, record the outcomes and are served by a `/status` endpoint.

This project models the logic in `main.go`:

- **`ArgTemplate`** (`args.dfy`): how the argument template `command.args`
  becomes positional arguments. `strings.Split(args, " ")` cuts on every single
  space. There is no quoting, and empty pieces are kept. `Split` is given with
  its laws: joining the parts with spaces gives the template back; no part
  holds a space; there is one more part than there are spaces. `SplitJoin`
  proves the converse round trip, so `Split` is the only such decomposition.
  Worked cases include the empty template, doubled spaces and a quoted value.
  Go splits bytes and Dafny splits `char`s. The two agree, because a space is
  one byte and never occurs inside a multi-byte UTF-8 sequence.
- **`Invoker`** (`invoker.dfy`): `invokeCommand` as a method with early returns.
  Its five steps run in this order: open the stdin pipe, write the body, start
  the process, close stdin, wait. Each step's result is an input
  (`ProcessEnv`). The method returns Go's `error` as an `Option` and records
  the steps it performed. The result is success exactly when all five steps
  succeed. Otherwise it is the first failing step's error, and no later step
  runs. For example, a failed write means the process is never started.
- **`Consumer`** (`consumer.dfy`): the shared counter registry (`Stats`), the
  channel's acknowledgements (`Channel`), the body of `for m := range msgs`
  (`HandleDelivery`) and the loop itself (`ConsumeQueue`). One queue's
  deliveries come in as a sequence. Each delivery is paired with its
  invocation's step results. The loop is proved against the specification
  functions `AckedTags` and `SuccessCount`. The lemmas about those functions
  give: acknowledged exactly when the invocation succeeded; acknowledged at
  most once; in delivery order; `ok + errors` grows by the number of
  deliveries.

The Go `stats` map holds the keys `"ok"` and `"errors"`. Here they are two
fields of `Stats`, and `Stats.Snapshot` rebuilds the map the status endpoint
encodes.

## Model

| member | source | states |
|---|---|---|
| `ArgTemplate.Split` | main.go:54 | the template cut on single spaces has exactly (number of spaces + 1) parts, and no part contains a space |
| `ArgTemplate.JoinSplit` | main.go:54 | joining the split parts with single spaces reproduces the template exactly |
| `ArgTemplate.SplitJoin` | main.go:54 | any non-empty list of space-free parts is what splitting its space-join gives back (the converse round trip) |
| `ArgTemplate.SplitSpaceFree` | main.go:54 | a template with no space is passed as a single argument |
| `ArgTemplate.SplitFlagsExample` | main.go:54 | `-x --flag value` becomes the three arguments `-x`, `--flag`, `value` |
| `ArgTemplate.SplitEmptyExample` | main.go:54 | the empty template becomes one empty argument, not zero arguments |
| `ArgTemplate.SplitDoubledSpaceExample` | main.go:54 | two adjacent spaces produce an empty argument between their neighbours |
| `ArgTemplate.SplitQuotedExample` | main.go:54 | quotes are not special: `-x "a b"` becomes `-x`, `"a`, `b"` |
| `Invoker.BuildCommand` | main.go:54-55 | the command runs the configured executable; its arguments re-join to the template, one more than its spaces |
| `Invoker.InvokeCommand` | main.go:53-78 | success iff pipe, write, start, close and wait all succeed; otherwise the first failing step's error, with that step the last one performed; the process is started iff pipe and write succeeded, and waited for iff the four earlier steps succeeded |
| `Consumer.Stats.constructor` | main.go:101-103 | both counters start at zero |
| `Consumer.Stats.IncrementOk` | main.go:130 | `ok` grows by one and `errors` is unchanged |
| `Consumer.Stats.IncrementErrors` | main.go:134 | `errors` grows by one and `ok` is unchanged |
| `Consumer.Stats.Snapshot` | main.go:81-83 | the status record has exactly the keys `ok` and `errors`, holding the current counters |
| `Consumer.Channel.Ack` | main.go:129 | acknowledging appends the delivery's tag to the channel's acknowledgements |
| `Consumer.HandleDelivery` | main.go:125-135 | on success the delivery is acked once and `ok` grows by one; on failure nothing is acked and `errors` grows by one; exactly one counter changes, by exactly one |
| `Consumer.ConsumeQueue` | main.go:124-136 | after the loop the new acks are the tags of the successful deliveries in delivery order; `ok` grew by the successes S, `errors` by N - S, and `ok + errors` by N |
| `Consumer.AckedTagsCount` | main.go:127-130 | there is one acknowledgement per successful delivery |
| `Consumer.AckedTagsAppend` | main.go:124 | acks and successes of consecutive batches concatenate: earlier deliveries are acked before later ones |
| `Consumer.AckedTagsFromSuccesses` | main.go:127-129 | every acked tag belongs to a delivery whose invocation succeeded (failed deliveries are never acked) |
| `Consumer.SuccessesAcked` | main.go:127-129 | every delivery whose invocation succeeded is acked |
| `Consumer.AckedIffSucceeded` | main.go:127-135 | with distinct delivery tags, a delivery is acked iff its invocation returned no error |
| `Consumer.AckedAtMostOnce` | main.go:127-135 | with distinct delivery tags, no tag is acked twice |
| `Consumer.AllSucceed` | main.go:124-136 | if every command succeeds, every delivery is acked, in order, and all N count as ok |
| `Consumer.AllFail` | main.go:124-136 | if every command fails, nothing is acked and no delivery counts as ok |
| `Consumer.MixedRunExample` | main.go:124-136 | from fresh counters, three successes and two failures give the status `{"ok": 3, "errors": 2}` with only the three successful tags acked |

## Left out

- Loading `config.yml` and the `log.Fatalf` exits (main.go:40-50): file I/O and a
  YAML deserialiser. The command part of the configuration is an immutable
  `CommandConfig` input.
- Dialling the broker, opening the channel and subscribing (main.go:89-99,
  116-121): network client code. A subscription's deliveries are a finite
  sequence, and the loop ends when that sequence ends, as `range` does when the
  Go channel closes.
- The real `m.Ack(false)` (main.go:129): an acknowledgement is recorded as the
  delivery tag appended to `Channel.acked`. The error that `Ack` can return is
  ignored by the source, and the model has no such error.
- Process spawning, pipes and exit codes via `os/exec` (main.go:55-77):
  foreign calls. Each step's result is an input. The model does not capture
  that the body is written before the process starts, so a body larger than the
  operating system's pipe buffer would block the write rather than fail it.
- Steps that never return (main.go:57-77): each of the five steps is assumed
  to return, with success or an error. A process that never exits makes
  `cmd.Wait()` block forever, because there is no timeout, and stalls that
  queue's loop (main.go:124-127) on that message. `ProcessEnv` cannot express
  this, so the stall is outside the model, and `ConsumeQueue`'s promise that
  every delivery is processed holds only when every step returns.
- Logging (main.go:86, 108-110, 121, 125, 128, 133): no behaviour to verify.
- HTTP serving and JSON encoding of the status (main.go:105-112, 82): the
  transport. Only the served record (`Stats.Snapshot`) is modelled.
- Concurrency across the per-queue goroutines (main.go:123-137): one queue's
  loop is modelled sequentially. The `stats` map, which all loops update
  without synchronisation, is a data race in the source and is not modelled.
  Each goroutine has its own `err`, declared at main.go:116. `ConsumeQueue`'s
  contract is stated for a single queue, with no other loop touching `stats`
  during the run.
- Blocking on the never-signalled `waiter` channel (main.go:140): the process
  simply never returns.
- Consumer.Stats.IncrementOk: the counters are unbounded `nat` values. The
  source's `int64` would wrap after 2^63 increments, which is not modelled.
- Consumer.Stats.IncrementErrors: same as `IncrementOk`. No 64-bit wrap-around.
- Consumer.AckedIffSucceeded: stated for distinct delivery tags. The broker
  numbers the deliveries on a channel uniquely, and the model takes that as a
  precondition rather than modelling the numbering.
- Consumer.AckedAtMostOnce: stated for distinct delivery tags, for the same
  reason as `AckedIffSucceeded`. Tags from the shared channel are unique.
