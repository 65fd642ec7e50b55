/** The PAM conversation callback: an allocation loop with a rollback loop. */
module Conversation {
  import opened Common

  datatype Style = EchoOff | EchoOn | ErrorMessage | TextInfo

  datatype Code = Success | ConvError | BufferError

  predicate IsPrompt(style: Style) {
    style.EchoOff? || style.EchoOn?
  }

  /** The C heap as the callback sees it: live blocks by address; 0 is NULL.  A block holds a
      string, or is the reply array itself. */
  datatype Block = Text(text: string) | Replies

  class Heap {
    var live: map<nat, Block>
    var next: nat

    ghost predicate Valid()
      reads this
    {
      next > 0 && forall a :: a in live ==> 0 < a < next
    }

    constructor ()
      ensures Valid() && live == map[]
    {
      live, next := map[], 1;
    }

    /** calloc or strdup: a fresh block, or NULL when memory is short. */
    method Allocate(content: Block, oom: bool) returns (a: nat)
      requires Valid()
      modifies this
      ensures Valid()
      ensures oom ==> a == 0 && live == old(live)
      ensures !oom ==> a > 0 && a !in old(live) && live == old(live)[a := content]
    {
      a := 0;
      if !oom {
        a := next;
        live, next := live[a := content], next + 1;
      }
    }

    /** free: only a live block or NULL may be released, so no block is released twice. */
    method Free(a: nat)
      requires Valid() && (a == 0 || a in live)
      modifies this
      ensures Valid() && live == old(live) - {a}
    {
      live := live - {a};
    }
  }

  datatype Response = Response(resp: nat, retcode: int)

  /** The reply array and the address of its block. */
  datatype Reply = Reply(address: nat, entries: array<Response>)

  /** The caller's `*resp`. */
  class Cell {
    var value: Option<Reply>

    constructor ()
      ensures value == None
    {
      value := None;
    }
  }

  /** The copies made for the first `n` messages. */
  ghost function Copies(entries: seq<Response>, n: nat): set<nat>
    requires n <= |entries|
  {
    set j | 0 <= j < n && entries[j].resp != 0 :: entries[j].resp
  }

  /** Each of the first `n` prompts has its own fresh copy of `text`, every other message none. */
  ghost predicate Answered(entries: seq<Response>, n: nat, styles: seq<Style>, text: string,
                           before: map<nat, Block>, after: map<nat, Block>)
    requires n <= |entries| && n <= |styles|
  {
    && (forall j :: 0 <= j < n ==>
          && (entries[j].resp != 0 <==> IsPrompt(styles[j]))
          && entries[j].retcode == 0
          && (entries[j].resp != 0 ==>
                entries[j].resp !in before && entries[j].resp in after
                && after[entries[j].resp] == Text(text)))
    && (forall i, j :: 0 <= i < j < n && entries[i].resp != 0 ==> entries[i].resp != entries[j].resp)
  }

  /** Nothing but the reply block and the copies has been added to the heap. */
  ghost predicate Exactly(before: map<nat, Block>, after: map<nat, Block>, address: nat, copies: set<nat>) {
    && address !in before && address in after && after[address] == Replies && address !in copies
    && after.Keys == before.Keys + {address} + copies
    && forall a :: a in before ==> after[a] == before[a]
  }

  /** Message `n` is no prompt: the reply array already holds its empty response. */
  lemma SkipOne(entries: seq<Response>, n: nat, styles: seq<Style>, text: string,
                before: map<nat, Block>, after: map<nat, Block>, address: nat)
    requires n < |entries| && n < |styles| && !IsPrompt(styles[n]) && entries[n] == Response(0, 0)
    requires Answered(entries, n, styles, text, before, after)
    requires Exactly(before, after, address, Copies(entries, n))
    ensures Answered(entries, n + 1, styles, text, before, after)
    ensures Exactly(before, after, address, Copies(entries, n + 1))
  {
    assert Copies(entries, n + 1) == Copies(entries, n);
  }

  /** Message `n` is a prompt and `copy` is its freshly allocated copy of the text. */
  lemma AnswerOne(entries: seq<Response>, n: nat, styles: seq<Style>, text: string,
                  before: map<nat, Block>, after: map<nat, Block>, address: nat, copy: nat)
    requires n < |entries| && n < |styles| && IsPrompt(styles[n])
    requires copy > 0 && copy !in after
    requires Answered(entries, n, styles, text, before, after)
    requires Exactly(before, after, address, Copies(entries, n))
    ensures var entries', after' := entries[n := Response(copy, 0)], after[copy := Text(text)];
            && Answered(entries', n + 1, styles, text, before, after')
            && Exactly(before, after', address, Copies(entries', n + 1))
  {
    var entries' := entries[n := Response(copy, 0)];
    CopiesGrow(entries', n);
    assert Copies(entries', n) == Copies(entries, n) by {
      assert forall j :: 0 <= j < n ==> entries'[j] == entries[j];
    }
  }

  lemma CopiesGrow(entries: seq<Response>, n: nat)
    requires n < |entries|
    ensures Copies(entries, n + 1)
            == Copies(entries, n) + if entries[n].resp != 0 then {entries[n].resp} else {}
  {
    var grown := Copies(entries, n) + if entries[n].resp != 0 then {entries[n].resp} else {};
    forall a | a in grown
      ensures a in Copies(entries, n + 1)
    {
      var j :| 0 <= j < n + 1 && entries[j].resp == a;
    }
  }

  /** Freeing the copy of message `n` leaves the answers to the messages before it. */
  lemma DropOne(entries: seq<Response>, n: nat, styles: seq<Style>, text: string,
                before: map<nat, Block>, after: map<nat, Block>, address: nat)
    requires n < |entries| && n < |styles| && 0 !in after
    requires Answered(entries, n + 1, styles, text, before, after)
    requires Exactly(before, after, address, Copies(entries, n + 1))
    ensures entries[n].resp == 0 || entries[n].resp in after
    ensures Answered(entries, n, styles, text, before, after - {entries[n].resp})
    ensures Exactly(before, after - {entries[n].resp}, address, Copies(entries, n))
  {
    CopiesGrow(entries, n);
  }

  /** The rollback: free the copies made for the messages before `n`, then the reply array. */
  method Rollback(heap: Heap, reply: Reply, n: nat, ghost styles: seq<Style>, ghost text: string,
                  ghost before: map<nat, Block>)
    requires heap.Valid() && n <= reply.entries.Length && n <= |styles|
    requires Answered(reply.entries[..], n, styles, text, before, heap.live)
    requires Exactly(before, heap.live, reply.address, Copies(reply.entries[..], n))
    modifies heap
    ensures heap.Valid() && heap.live == before
  {
    var i: nat := n;
    while i > 0
      invariant i <= n && heap.Valid()
      invariant Answered(reply.entries[..], i, styles, text, before, heap.live)
      invariant Exactly(before, heap.live, reply.address, Copies(reply.entries[..], i))
    {
      i := i - 1;
      DropOne(reply.entries[..], i, styles, text, before, heap.live, reply.address);
      heap.Free(reply.entries[i].resp);
    }
    heap.Free(reply.address);
    assert heap.live.Keys == before.Keys;
  }

  /** One prompt of the allocation loop: its copy of the text, or nothing changed. */
  method AnswerPrompt(heap: Heap, entries: array<Response>, i: nat, address: nat, styles: seq<Style>, text: string,
                      fails: bool, ghost before: map<nat, Block>) returns (ok: bool)
    requires heap.Valid() && i < entries.Length <= |styles| && IsPrompt(styles[i])
    requires Answered(entries[..], i, styles, text, before, heap.live)
    requires Exactly(before, heap.live, address, Copies(entries[..], i))
    modifies heap, entries
    ensures heap.Valid() && ok == !fails
    ensures forall j :: 0 <= j < entries.Length && j != i ==> entries[j] == old(entries[j])
    ensures !ok ==> heap.live == old(heap.live) && entries[..] == old(entries[..])
    ensures ok ==> Answered(entries[..], i + 1, styles, text, before, heap.live)
                   && Exactly(before, heap.live, address, Copies(entries[..], i + 1))
  {
    ghost var shown, held := entries[..], heap.live;
    var copy := heap.Allocate(Text(text), fails);
    if copy == 0 { return false; }
    AnswerOne(shown, i, styles, text, before, held, address, copy);
    entries[i] := Response(copy, 0);
    assert entries[..] == shown[i := Response(copy, 0)];
    return true;
  }

  /** One turn of the allocation loop: message `i` is answered if it is a prompt, unless that fails. */
  method AnswerMessage(heap: Heap, entries: array<Response>, i: nat, address: nat, styles: seq<Style>, text: string,
                       fails: bool, ghost before: map<nat, Block>) returns (ok: bool)
    requires heap.Valid() && i < entries.Length <= |styles| && entries[i] == Response(0, 0)
    requires Answered(entries[..], i, styles, text, before, heap.live)
    requires Exactly(before, heap.live, address, Copies(entries[..], i))
    modifies heap, entries
    ensures heap.Valid() && (ok <==> !(IsPrompt(styles[i]) && fails))
    ensures forall j :: 0 <= j < entries.Length && j != i ==> entries[j] == old(entries[j])
    ensures var n := if ok then i + 1 else i;
            && Answered(entries[..], n, styles, text, before, heap.live)
            && Exactly(before, heap.live, address, Copies(entries[..], n))
  {
    ok := true;
    if IsPrompt(styles[i]) {
      ok := AnswerPrompt(heap, entries, i, address, styles, text, fails, before);
    } else {
      SkipOne(entries[..], i, styles, text, before, heap.live, address);
    }
  }

  /** The allocation loop: answer every prompt, or roll everything back. */
  method Fill(heap: Heap, entries: array<Response>, address: nat, styles: seq<Style>, text: string,
              oom: nat -> bool, ghost before: map<nat, Block>) returns (ok: bool)
    requires heap.Valid() && entries.Length <= |styles|
    requires forall j :: 0 <= j < entries.Length ==> entries[j] == Response(0, 0)
    requires Exactly(before, heap.live, address, {})
    modifies heap, entries
    ensures heap.Valid()
    ensures ok <==> forall i :: 0 <= i < entries.Length && IsPrompt(styles[i]) ==> !oom(i)
    ensures !ok ==> heap.live == before
    ensures ok ==> Answered(entries[..], entries.Length, styles, text, before, heap.live)
                   && Exactly(before, heap.live, address, Copies(entries[..], entries.Length))
  {
    var i: nat := 0;
    assert Copies(entries[..], 0) == {};
    while i < entries.Length
      invariant i <= entries.Length && heap.Valid()
      invariant forall j :: i <= j < entries.Length ==> entries[j] == Response(0, 0)
      invariant forall j :: 0 <= j < i && IsPrompt(styles[j]) ==> !oom(j)
      invariant Answered(entries[..], i, styles, text, before, heap.live)
      invariant Exactly(before, heap.live, address, Copies(entries[..], i))
    {
      var answered := AnswerMessage(heap, entries, i, address, styles, text, oom(i), before);
      if !answered {
        Rollback(heap, Reply(address, entries), i, styles, text, before);
        return false;
      }
      i := i + 1;
    }
    return true;
  }

  /** internal_pam_conv: all or nothing.  `oomReply` and `oom(i)` say which allocations fail. */
  method Converse(numMsg: int, styles: seq<Style>, out: Cell?, appdata: Option<string>, heap: Heap,
                  oomReply: bool, oom: nat -> bool) returns (code: Code)
    requires heap.Valid() && numMsg <= |styles|
    modifies heap, out
    ensures heap.Valid()
    ensures code.ConvError? <==> numMsg <= 0 || out == null || appdata.None?
    ensures !code.ConvError? ==>
              (code.BufferError? <==>
                 oomReply || exists i :: 0 <= i < numMsg && IsPrompt(styles[i]) && oom(i))
    ensures !code.Success? ==> heap.live == old(heap.live) && (out != null ==> out.value == old(out.value))
    ensures code.Success? ==>
              && out.value.Some?
              && fresh(out.value.value.entries) && out.value.value.entries.Length == numMsg
              && Answered(out.value.value.entries[..], numMsg, styles, appdata.value, old(heap.live), heap.live)
              && Exactly(old(heap.live), heap.live, out.value.value.address,
                         Copies(out.value.value.entries[..], numMsg))
  {
    if numMsg <= 0 || out == null || appdata.None? {
      return ConvError;
    }
    var address := heap.Allocate(Replies, oomReply);
    if address == 0 {
      return BufferError;
    }
    var entries := new Response[numMsg](_ => Response(0, 0));
    var ok := Fill(heap, entries, address, styles, appdata.value, oom, old(heap.live));
    if !ok {
      return BufferError;
    }
    out.value := Some(Reply(address, entries));
    return Success;
  }
}
