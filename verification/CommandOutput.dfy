/** Two reader threads collect and stream the output of a command (daemon/tools.py,
    execute_command), each line by line from its own pipe, under a cap of its own, and both
    into one listener. */
module CommandOutput {
  import opened Basics

  const CAP: nat := 200000

  datatype Pipe = Stdout | Stderr

  function Joined(parts: seq<string>): string {
    if parts == [] then "" else Joined(parts[..|parts| - 1]) + parts[|parts| - 1]
  }

  lemma JoinedMore(parts: seq<string>, part: string)
    ensures Joined(parts + [part]) == Joined(parts) + part
  {
    assert (parts + [part])[..|parts|] == parts;
  }

  function Capped(s: string, cap: nat): string {
    if |s| <= cap then s else s[..cap]
  }

  /** Capping what is read line by line: once the cap is passed nothing more is kept. */
  lemma KeepCapped(s: string, line: string, cap: nat)
    ensures |s| > cap ==> Capped(s + line, cap) == Capped(s, cap) && |s + line| > cap
    ensures |s| <= cap ==> Capped(s + line, cap) == s + if |line| > cap - |s| then line[..cap - |s|] else line
  {
    if |s| > cap {
      assert (s + line)[..cap] == s[..cap];
    } else if |line| > cap - |s| {
      assert (s + line)[..cap] == s + line[..cap - |s|];
    }
  }

  /** The calls of on_chunk, by both threads, in the order they are made. */
  class Listener {
    var calls: seq<(Pipe, string)>

    constructor ()
      ensures calls == []
    {
      calls := [];
    }
  }

  /** What was streamed for one pipe. */
  function Heard(calls: seq<(Pipe, string)>, pipe: Pipe): string {
    if calls == [] then ""
    else
      var last := calls[|calls| - 1];
      Heard(calls[..|calls| - 1], pipe) + if last.0 == pipe then last.1 else ""
  }

  lemma HeardMore(calls: seq<(Pipe, string)>, call: (Pipe, string), pipe: Pipe)
    ensures Heard(calls + [call], pipe) == Heard(calls, pipe) + if call.0 == pipe then call.1 else ""
  {
    assert (calls + [call])[..|calls|] == calls;
  }

  /** One thread: it takes a line, and as a separate step passes on what it kept of it. */
  class Thread {
    const pipe: Pipe
    const cap: nat
    var lines: seq<string>
    var accumulated: seq<string>
    var chars: nat
    var truncated: bool
    var held: string
    ghost var taken: seq<string>

    constructor (pipe: Pipe, cap: nat, lines: seq<string>)
      ensures this.pipe == pipe && this.cap == cap && this.lines == lines && taken == [] && held == ""
      ensures Valid()
    {
      this.pipe := pipe;
      this.cap := cap;
      this.lines := lines;
      accumulated, chars, truncated, held, taken := [], 0, false, "", [];
    }

    /** The text kept is what was taken, up to the cap; the flag says that there was more. */
    ghost predicate Valid()
      reads this
    {
      && Joined(accumulated) == Capped(Joined(taken), cap)
      && chars == |Joined(accumulated)|
      && (truncated <==> |Joined(taken)| > cap)
    }

    predicate Running()
      reads this
    {
      lines != [] || held != ""
    }

    ghost function Left(): nat
      reads this
    {
      2 * |lines| + if held != "" then 1 else 0
    }

    /** What the listener has been told, and what it is about to be told, is what is kept. */
    ghost predicate Told(listener: Listener)
      reads this, listener
    {
      Heard(listener.calls, pipe) + held == Joined(accumulated)
    }

    method Take()
      requires Valid() && lines != [] && held == ""
      modifies this
      ensures Valid() && Left() < old(Left())
      ensures taken + lines == old(taken + lines)
      ensures Joined(accumulated) == old(Joined(accumulated)) + held
    {
      var line := lines[0];
      MoveFirst(taken, lines);
      JoinedMore(taken, line);
      KeepCapped(Joined(taken), line, cap);
      lines, taken := lines[1..], taken + [line];
      if truncated {
        AddNothing(Joined(accumulated));
        return;
      }
      var remaining := cap - chars;
      if |line| > remaining {
        line := line[..remaining];
        truncated := true;
      }
      JoinedMore(accumulated, line);
      accumulated := accumulated + [line];
      chars := chars + |line|;
      held := line;
    }

    method Emit(listener: Listener)
      requires Valid() && held != "" && Told(listener)
      modifies this`held, listener
      ensures Valid() && Told(listener) && Left() < old(Left())
      ensures listener.calls == old(listener.calls) + [(pipe, old(held))]
    {
      ghost var heard := Heard(listener.calls, pipe) + held;
      HeardMore(listener.calls, (pipe, held), pipe);
      listener.calls := listener.calls + [(pipe, held)];
      held := "";
      AddNothing(heard);
    }

    /** Whatever the thread does next. */
    method Step(listener: Listener)
      requires Valid() && Running() && Told(listener)
      modifies this, listener
      ensures Valid() && Told(listener) && Left() < old(Left())
      ensures taken + lines == old(taken + lines)
      ensures forall p :: p != pipe ==> Heard(listener.calls, p) == old(Heard(listener.calls, p))
      ensures AllCallsMean(old(listener.calls)) ==> AllCallsMean(listener.calls)
    {
      if held != "" {
        ghost var before, call := listener.calls, (pipe, held);
        Emit(listener);
        forall p | p != pipe ensures Heard(before + [call], p) == Heard(before, p) { HeardMore(before, call, p); }
      } else {
        Take();
        AddNothing(Heard(listener.calls, pipe));
      }
    }
  }

  lemma AddNothing(a: string)
    ensures a + "" == a
  {
  }

  /** No call is made for nothing. */
  predicate AllCallsMean(calls: seq<(Pipe, string)>) {
    forall k :: 0 <= k < |calls| ==> calls[k].1 != ""
  }

  datatype Output = Output(stdout: string, stderr: string, truncated: bool)

  /** The threads take turns in any way until both have drained their pipes. */
  method Collect(outLines: seq<string>, errLines: seq<string>) returns (r: Output, calls: seq<(Pipe, string)>)
    ensures r.stdout == Capped(Joined(outLines), CAP) && r.stderr == Capped(Joined(errLines), CAP)
    ensures r.truncated <==> |Joined(outLines)| > CAP || |Joined(errLines)| > CAP
    ensures Heard(calls, Stdout) == r.stdout && Heard(calls, Stderr) == r.stderr
    ensures AllCallsMean(calls)
  {
    var listener := new Listener();
    var out := new Thread(Stdout, CAP, outLines);
    var err := new Thread(Stderr, CAP, errLines);
    assert [] + outLines == outLines && [] + errLines == errLines;
    while
      invariant out.Valid() && err.Valid() && out.Told(listener) && err.Told(listener)
      invariant fresh(listener) && fresh(out) && fresh(err)
      invariant out.taken + out.lines == outLines && err.taken + err.lines == errLines
      invariant AllCallsMean(listener.calls)
      decreases out.Left() + err.Left()
    {
      case out.Running() => out.Step(listener);
      case err.Running() => err.Step(listener);
    }
    assert out.taken == outLines && err.taken == errLines;
    r := Output(Joined(out.accumulated), Joined(err.accumulated), out.truncated || err.truncated);
    calls := listener.calls;
  }
}
