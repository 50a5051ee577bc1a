/**
 * `print_stream_response`: a single pass over a streamed completion that
 * prints the first choice's delta content of every chunk that has one,
 * and stops with one diagnostic line when iterating raises an `Exception`.
 * An exception outside `Exception` (an interrupt) ends the pass with no
 * diagnostic and leaves the function.
 */
module StreamPrinter {
  import opened Wrappers

  /** One entry of `chunk.choices`; only `delta.content` is read. */
  datatype Choice = Choice(deltaContent: Option<string>)

  /**
   * What the next step of iterating the response yields: a chunk; an
   * `Exception` (carrying its `str(e)`) raised while producing or reading
   * it, which the `except` clause catches; or a `BaseException` that is not
   * an `Exception` (`KeyboardInterrupt`, `SystemExit`, `GeneratorExit`),
   * which the `except` clause does not catch.
   */
  datatype StreamItem = Chunk(choices: seq<Choice>) | Fault(detail: string) | Interrupt

  /** One `print` call: a fragment, or the error diagnostic. */
  datatype Printed = Text(text: string) | StreamError(detail: string)

  /** `chunk.choices and chunk.choices[0].delta.content`. */
  predicate Emits(item: StreamItem)
  {
    item.Chunk? && |item.choices| > 0 && Truthy(item.choices[0].deltaContent)
  }

  /** The fragment an emitting chunk prints. */
  function Fragment(item: StreamItem): (s: string)
    requires Emits(item)
    ensures s != ""
  {
    item.choices[0].deltaContent.value
  }

  /** No step of the iteration raises an `Exception`. */
  predicate NoFault(items: seq<StreamItem>)
  {
    forall k :: 0 <= k < |items| ==> !items[k].Fault?
  }

  /** No step of the iteration raises anything: every item is a chunk. */
  predicate NoStop(items: seq<StreamItem>)
  {
    forall k :: 0 <= k < |items| ==> items[k].Chunk?
  }

  /** The text that one `print` call writes to standard output. */
  function Rendered(p: Printed): (s: string)
    ensures p.Text? ==> s == p.text
    ensures p.StreamError? ==>
              && |s| == |p.detail| + 26
              && s[0] == '\n' && s[|s| - 1] == '\n'
              && s[25..|s| - 1] == p.detail
  {
    match p
    case Text(t) => t                                           // end=""
    case StreamError(e) => "\nError during streaming: " + e + "\n"   // default end
  }

  /**
   * The sequence of `print` calls that consuming `items` makes: each item
   * prints at most once, and only the last print can be a diagnostic.
   */
  function StreamOutput(items: seq<StreamItem>): (r: seq<Printed>)
    ensures |r| <= |items|
    ensures forall j :: 0 <= j < |r| - 1 ==> r[j].Text?
  {
    if items == [] then []
    else match items[0]
      case Fault(e) => [StreamError(e)]
      case Interrupt => []
      case Chunk(_) =>
        if Emits(items[0]) then [Text(Fragment(items[0]))] + StreamOutput(items[1..])
        else StreamOutput(items[1..])
  }

  /**
   * The exception leaves `print_stream_response`: an interrupt arrives
   * before any `Exception` has ended the loop.
   */
  ghost predicate Escapes(items: seq<StreamItem>)
  {
    exists k :: 0 <= k < |items| && items[k].Interrupt? && NoStop(items[..k])
  }

  /**
   * The loop of `print_stream_response`, appending each `print` call to
   * `printed`; `escaped` says that an interrupt propagated out of it.
   */
  method PrintStreamResponse(response: seq<StreamItem>) returns (printed: seq<Printed>, escaped: bool)
    ensures printed == StreamOutput(response)
    ensures escaped == Escapes(response)
  {
    printed, escaped := [], false;
    var i := 0;
    while i < |response|
      invariant 0 <= i <= |response|
      invariant printed + StreamOutput(response[i..]) == StreamOutput(response)
      invariant NoStop(response[..i])
    {
      var item := response[i];
      assert response[i..][0] == item && response[i..][1..] == response[i + 1..];
      match item
      case Fault(e) =>
        printed := printed + [StreamError(e)];
        NotEscapedAfterFault(response, i);
        return;
      case Interrupt =>
        escaped := true;
        return;
      case Chunk(choices) =>
        if |choices| > 0 && Truthy(choices[0].deltaContent) {
          printed := printed + [Text(choices[0].deltaContent.value)];
        }
        assert response[..i + 1] == response[..i] + [item];
        i := i + 1;
    }
    assert response[..i] == response;
  }

  // ---------------------------------------------------------------------
  // Properties of the printed output
  // ---------------------------------------------------------------------

  /** A caught `Exception` at position k, after k chunks, means nothing escapes. */
  lemma NotEscapedAfterFault(items: seq<StreamItem>, k: nat)
    requires k < |items| && items[k].Fault? && NoStop(items[..k])
    ensures !Escapes(items)
  {
    forall j | 0 <= j < |items| && items[j].Interrupt?
      ensures !NoStop(items[..j])
    {
      if j > k {
        assert items[..j][k] == items[k];
      }
    }
  }

  /** Output is incremental: a prefix of chunks is printed before anything after it. */
  lemma {:induction false} OutputAppend(a: seq<StreamItem>, b: seq<StreamItem>)
    requires NoStop(a)
    ensures StreamOutput(a + b) == StreamOutput(a) + StreamOutput(b)
  {
    if a != [] {
      assert a[0].Chunk?;
      assert NoStop(a[1..]) by {
        forall k | 0 <= k < |a| - 1 ensures a[1..][k].Chunk? {
          assert a[1..][k] == a[k + 1];
        }
      }
      assert (a + b)[0] == a[0];
      assert (a + b)[1..] == a[1..] + b;
      OutputAppend(a[1..], b);
      if Emits(a[0]) {
        assert StreamOutput(a + b) == [Text(Fragment(a[0]))] + StreamOutput(a[1..] + b);
      } else {
        assert StreamOutput(a + b) == StreamOutput(a[1..] + b);
      }
    } else {
      assert a + b == b;
    }
  }

  /** Without a caught `Exception`, only fragments are printed, never a diagnostic. */
  lemma {:induction false} FaultFreeOutputIsText(items: seq<StreamItem>)
    requires NoFault(items)
    ensures forall j :: 0 <= j < |StreamOutput(items)| ==> StreamOutput(items)[j].Text?
  {
    if items != [] {
      assert !items[0].Fault?;
      assert NoFault(items[1..]) by {
        forall k | 0 <= k < |items| - 1 ensures !items[1..][k].Fault? {
          assert items[1..][k] == items[k + 1];
        }
      }
      FaultFreeOutputIsText(items[1..]);
    }
  }

  /**
   * An `Exception` at position k, after k chunks, ends the output with
   * exactly what those chunks printed followed by one diagnostic carrying
   * the exception's text; nothing after it is printed.
   */
  lemma OutputStopsAtFault(items: seq<StreamItem>, k: nat)
    requires k < |items| && items[k].Fault? && NoStop(items[..k])
    ensures StreamOutput(items) == StreamOutput(items[..k]) + [StreamError(items[k].detail)]
    ensures forall j :: 0 <= j < |StreamOutput(items)| - 1 ==> StreamOutput(items)[j].Text?
  {
    assert items == items[..k] + items[k..];
    OutputAppend(items[..k], items[k..]);
    assert items[k..][0] == items[k];
  }

  /**
   * An interrupt at position k, after k chunks, ends the output with exactly
   * what those chunks printed, prints no diagnostic, and escapes.
   */
  lemma OutputStopsAtInterrupt(items: seq<StreamItem>, k: nat)
    requires k < |items| && items[k].Interrupt? && NoStop(items[..k])
    ensures StreamOutput(items) == StreamOutput(items[..k])
    ensures forall j :: 0 <= j < |StreamOutput(items)| ==> StreamOutput(items)[j].Text?
    ensures Escapes(items)
  {
    assert items == items[..k] + items[k..];
    OutputAppend(items[..k], items[k..]);
    assert items[k..][0] == items[k];
    assert NoFault(items[..k]);
    FaultFreeOutputIsText(items[..k]);
  }

  /** The position of the first item that is not a chunk. */
  function FirstStop(items: seq<StreamItem>): (k: nat)
    requires !NoStop(items)
    ensures k < |items| && !items[k].Chunk? && NoStop(items[..k])
  {
    if !items[0].Chunk? then 0
    else
      assert !NoStop(items[1..]) by {
        var k :| 0 <= k < |items| && !items[k].Chunk?;
        assert items[1..][k - 1] == items[k];
      }
      1 + FirstStop(items[1..])
  }

  /**
   * A diagnostic is printed if and only if some step of the iteration raises
   * an `Exception` before any interrupt has left the function.
   */
  lemma DiagnosticIffFault(items: seq<StreamItem>)
    ensures (exists j :: 0 <= j < |StreamOutput(items)| && StreamOutput(items)[j].StreamError?)
        <==> (exists k :: 0 <= k < |items| && items[k].Fault? && NoStop(items[..k]))
  {
    if NoStop(items) {
      FaultFreeOutputIsText(items);
    } else {
      var k := FirstStop(items);
      if items[k].Fault? {
        OutputStopsAtFault(items, k);
        assert StreamOutput(items)[|StreamOutput(items)| - 1].StreamError?;
      } else {
        OutputStopsAtInterrupt(items, k);
        forall k' | 0 <= k' < |items| && items[k'].Fault?
          ensures !NoStop(items[..k'])
        {
          if k' > k {
            assert items[..k'][k] == items[k];
          }
        }
      }
    }
  }

  /**
   * When every chunk carries content and nothing raises, N chunks give
   * exactly N prints, in the order the chunks arrived.
   */
  lemma {:induction false} EveryFragmentPrinted(items: seq<StreamItem>)
    requires forall k :: 0 <= k < |items| ==> Emits(items[k])
    ensures |StreamOutput(items)| == |items|
    ensures forall k :: 0 <= k < |items| ==> StreamOutput(items)[k] == Text(Fragment(items[k]))
  {
    if items != [] {
      EveryFragmentPrinted(items[1..]);
      forall k | 0 <= k < |items|
        ensures StreamOutput(items)[k] == Text(Fragment(items[k]))
      {
        if k > 0 {
          assert items[1..][k - 1] == items[k];
        }
      }
    }
  }

  /**
   * The fragments of `items` in arrival order, defined independently of the
   * loop: filter the chunks that print, keep their content, working from the
   * last item back.
   */
  function Frags(items: seq<StreamItem>): seq<Printed>
  {
    if items == [] then []
    else
      var last := items[|items| - 1];
      Frags(items[..|items| - 1]) + (if Emits(last) then [Text(Fragment(last))] else [])
  }

  /** A stream that never raises prints exactly its fragments, in order, silent chunks skipped. */
  lemma {:induction false} FaultFreeOutputIsFrags(items: seq<StreamItem>)
    requires NoStop(items)
    ensures StreamOutput(items) == Frags(items)
  {
    if items != [] {
      var n := |items| - 1;
      var init, last := items[..n], items[n];
      assert items == init + [last];
      assert NoStop(init) by {
        forall k | 0 <= k < n ensures init[k].Chunk? {
          assert init[k] == items[k];
        }
      }
      FaultFreeOutputIsFrags(init);
      OutputAppend(init, [last]);
      assert [last][1..] == [];
    }
  }

  /**
   * One step of the loop, for any chunk and whatever follows it: the chunk
   * prints its first choice's content exactly when it has a choice and that
   * content is present, not `None` and not empty; then the rest is consumed.
   */
  lemma {:induction false} ChunkStep(item: StreamItem, rest: seq<StreamItem>)
    requires item.Chunk?
    ensures StreamOutput([item] + rest)
         == (if |item.choices| > 0 && item.choices[0].deltaContent.Some?
                && item.choices[0].deltaContent.value != ""
             then [Text(item.choices[0].deltaContent.value)]
             else [])
            + StreamOutput(rest)
  {
    assert ([item] + rest)[0] == item;
    assert ([item] + rest)[1..] == rest;
  }

  /** A chunk with no choices or with empty/`None` content prints nothing. */
  lemma SilentChunkPrintsNothing(item: StreamItem, rest: seq<StreamItem>)
    requires item.Chunk? && !Emits(item)
    ensures StreamOutput([item] + rest) == StreamOutput(rest)
  {
    ChunkStep(item, rest);
  }
}
