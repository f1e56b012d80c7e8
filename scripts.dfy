/** The legacy server's command helpers: the argument vectors that run a tool inside a micromamba
  * environment, and how `executeCommand` turns the events of a child process into the chunks it
  * forwards and the way its promise settles. */
module Scripts {
  import opened Text
  import opened JsValues

  /** `micromambaCLI(env, params)`; a call without `params` passes `[]`. */
  function MicromambaCLI(env: JsValue, params: seq<JsValue>): seq<JsValue>
  {
    [Str("micromamba"), Str("run"), Str("-n"), env] + params
  }

  /** `pdalCLI(params)`: `pdal` and the parameters, inside the `pdal_env` environment. */
  function PdalCLI(params: seq<JsValue>): seq<JsValue>
  {
    MicromambaCLI(Str("pdal_env"), [Str("pdal")] + params)
  }

  /** The vector is the four-word launcher followed by the parameters, unchanged and in order;
    * extra parameters are simply appended. */
  lemma MicromambaShape(env: JsValue, params: seq<JsValue>, more: seq<JsValue>)
    ensures |MicromambaCLI(env, params)| == 4 + |params|
    ensures MicromambaCLI(env, params)[3] == env
    ensures MicromambaCLI(env, params)[4..] == params
    ensures forall i :: 0 <= i < |params| ==> MicromambaCLI(env, params)[4 + i] == params[i]
    ensures MicromambaCLI(env, params + more) == MicromambaCLI(env, params) + more
  {
    assert [Str("micromamba"), Str("run"), Str("-n"), env] + (params + more)
        == ([Str("micromamba"), Str("run"), Str("-n"), env] + params) + more;
  }

  /** `pdalCLI(p)` always starts `micromamba run -n pdal_env pdal` and ends with `p`. */
  lemma PdalShape(params: seq<JsValue>)
    ensures var argv := PdalCLI(params);
      |argv| == 5 + |params| &&
      argv[..5] == [Str("micromamba"), Str("run"), Str("-n"), Str("pdal_env"), Str("pdal")] &&
      argv[5..] == params
  {
  }

  /** `command.join(' ')`: what `child_process.exec` is given. Holes (undefined, null) print as
    * nothing, like any other `join`. */
  function CommandText(e: Engine, argv: seq<JsValue>): string
  {
    Join(seq(|argv|, i requires 0 <= i < |argv| =>
      if argv[i].Undefined? || argv[i].Null? then "" else ToString(e, argv[i])), " ")
  }

  /** The words of the command line are the parameters' texts, one space apart: for a vector of
    * strings free of spaces, splitting the command text at spaces recovers the vector. */
  lemma {:induction false} CommandWords(e: Engine, words: seq<string>)
    requires |words| >= 1
    requires forall i :: 0 <= i < |words| ==> ' ' !in words[i]
    ensures Split(CommandText(e, seq(|words|, i requires 0 <= i < |words| => Str(words[i]))), ' ') == words
  {
    var argv := seq(|words|, i requires 0 <= i < |words| => Str(words[i]));
    var texts := seq(|argv|, i requires 0 <= i < |argv| =>
      if argv[i].Undefined? || argv[i].Null? then "" else ToString(e, argv[i]));
    assert texts == words;
    JoinSplit(words, ' ');
  }

  /** What the child process reports, in the order the event loop delivers it. */
  datatype ProcessEvent =
    | StdOut(chunk: string)
    | StdErr(chunk: string)
    | SpawnError(message: string)
    | Exit(code: JsValue)

  /** Which of `options.onStdOut` / `options.onStdErr` the caller passed. */
  datatype Callbacks = Callbacks(onStdOut: bool, onStdErr: bool)

  /** The promise: still pending, fulfilled with the exit code, or rejected with the message. */
  datatype Settlement = Pending | Resolved(code: JsValue) | Rejected(reason: string)

  predicate Terminal(ev: ProcessEvent)
  {
    ev.SpawnError? || ev.Exit?
  }

  /** A promise settles once: the first `error` or `exit` event decides it, later ones are
    * ignored. Any exit code, zero or not, fulfils it. */
  function SettlementOf(events: seq<ProcessEvent>): Settlement
  {
    if |events| == 0 then Pending
    else match events[0]
      case SpawnError(m) => Rejected(m)
      case Exit(c) => Resolved(c)
      case _ => SettlementOf(events[1..])
  }

  /** Index of the event that settled the promise (|events| while pending). */
  function SettledAt(events: seq<ProcessEvent>): (k: nat)
    ensures k <= |events|
    ensures forall i :: 0 <= i < k ==> !Terminal(events[i])
    ensures k < |events| ==> Terminal(events[k])
  {
    if |events| == 0 then 0
    else if Terminal(events[0]) then 0
    else 1 + SettledAt(events[1..])
  }

  /** The stdout (or stderr) chunks among the events, in order. */
  function Chunks(events: seq<ProcessEvent>, stdout: bool): seq<string>
  {
    if |events| == 0 then []
    else
      var n := |events| - 1;
      Chunks(events[..n], stdout) +
        (if (stdout && events[n].StdOut?) || (!stdout && events[n].StdErr?) then [events[n].chunk] else [])
  }

  /** `executeCommand(command, options)` driven by the given events: every chunk is handed to its
    * callback when that callback exists (also after the promise has settled, since the listeners
    * stay attached), and the promise settles on the first `error` or `exit`. */
  method ExecuteCommand(events: seq<ProcessEvent>, options: Callbacks)
    returns (out: seq<string>, err: seq<string>, result: Settlement)
    ensures out == (if options.onStdOut then Chunks(events, true) else [])
    ensures err == (if options.onStdErr then Chunks(events, false) else [])
    ensures result == SettlementOf(events)
  {
    out, err, result := [], [], Pending;
    var i := 0;
    while i < |events|
      invariant 0 <= i <= |events|
      invariant out == (if options.onStdOut then Chunks(events[..i], true) else [])
      invariant err == (if options.onStdErr then Chunks(events[..i], false) else [])
      invariant result == if SettledAt(events) < i then SettlementOf(events) else Pending
    {
      assert events[..i + 1][..i] == events[..i];
      SettledAtDecides(events);
      match events[i] {
      case StdOut(chunk) =>
        if options.onStdOut {
          out := out + [chunk];
        }
      case StdErr(chunk) =>
        if options.onStdErr {
          err := err + [chunk];
        }
      case SpawnError(message) =>
        if result == Pending {
          result := Rejected(message);
        }
      case Exit(code) =>
        if result == Pending {
          result := Resolved(code);
        }
      }
      i := i + 1;
    }
    assert events[..i] == events;
    SettledAtDecides(events);
  }

  /** The promise is settled by the first `error` or `exit` event and by nothing else: it stays
    * pending without one, is rejected only by an `error` and fulfilled only by an `exit`. */
  lemma {:induction false} SettledAtDecides(events: seq<ProcessEvent>)
    ensures SettledAt(events) == |events| ==> SettlementOf(events) == Pending
    ensures SettledAt(events) < |events| ==>
      SettlementOf(events) ==
        match events[SettledAt(events)]
        case SpawnError(m) => Rejected(m)
        case Exit(c) => Resolved(c)
        case _ => Pending
  {
    if |events| > 0 && !Terminal(events[0]) {
      SettledAtDecides(events[1..]);
    }
  }

  /** Output before the exit does not matter: an `exit` after any chunks fulfils the promise
    * with its code, whatever that code is; an `error` before it rejects. */
  lemma {:induction false} ExitResolves(chunks: seq<ProcessEvent>, last: ProcessEvent, rest: seq<ProcessEvent>)
    requires forall i :: 0 <= i < |chunks| ==> !Terminal(chunks[i])
    requires Terminal(last)
    ensures SettlementOf(chunks + [last] + rest) ==
      if last.Exit? then Resolved(last.code) else Rejected(last.message)
  {
    if |chunks| > 0 {
      assert (chunks + [last] + rest)[1..] == chunks[1..] + [last] + rest;
      ExitResolves(chunks[1..], last, rest);
    }
  }
}
