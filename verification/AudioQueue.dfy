/** The chunked audio queue on the heap, proved against QueueSpec. */
module AudioQueueModule {
  import opened Bytes
  import opened Wrappers
  import QueueSpec

  /** One chunk: length bytes of buffer, from offset on, are still unread. */
  class AudioQueueEntry {
    const buffer: array<byte>
    var offset: nat
    var length: nat

    ghost predicate Valid()
      reads this
    {
      offset + length == buffer.Length
    }

    ghost function Unread(): seq<byte>
      requires Valid()
      reads this, buffer
    {
      buffer[offset..]
    }

    constructor (source: array<byte>, length: nat)
      requires length <= source.Length
      ensures Valid() && fresh(buffer)
      ensures offset == 0 && Unread() == source[..length]
    {
      var copy := new byte[length](i requires 0 <= i < length reads source => source[i]);
      buffer, offset, this.length := copy, 0, length;
      new;
      assert copy[..] == source[..length];
    }
  }

  /** memcpy between two buffers. */
  method Copy(target: array<byte>, at: nat, source: array<byte>, from: nat, count: nat)
    requires target != source
    requires at + count <= target.Length && from + count <= source.Length
    modifies target
    ensures target[..] == old(target[..at]) + source[from..from + count] + old(target[at + count..])
  {
    forall i | 0 <= i < count {
      target[at + i] := source[from + i];
    }
  }

  class AudioQueue {
    var dataSize: nat
    var busy: bool
    var ended: bool
    var terminating: bool
    var requestedSize: nat
    var processedBytes: nat
    var audioQueue: seq<AudioQueueEntry>

    ghost var chunks: seq<seq<byte>>  // the unread bytes of each entry
    ghost var Repr: set<object>

    ghost predicate Valid()
      reads this, Repr
      ensures Valid() ==> this in Repr
    {
      && this in Repr
      && |chunks| == |audioQueue|
      && (forall i | 0 <= i < |audioQueue| ::
            && audioQueue[i] in Repr
            && audioQueue[i].buffer in Repr
            && audioQueue[i].Valid()
            && chunks[i] == audioQueue[i].Unread()
            // only the front chunk can have been read in part
            && (0 < i ==> audioQueue[i].offset == 0))
      && (forall i, j | 0 <= i < j < |audioQueue| :: audioQueue[i] != audioQueue[j])
      && dataSize == |Flatten(chunks)|
    }

    ghost function View(): QueueSpec.Queue
      requires Valid()
      reads this, Repr
    {
      QueueSpec.Queue(Flatten(chunks), ended, terminating, busy, requestedSize, processedBytes)
    }

    constructor ()
      ensures Valid() && fresh(Repr)
      ensures View() == QueueSpec.EMPTY == QueueSpec.Queue([], false, false, false, 0, 0)
    {
      dataSize, ended, terminating, busy := 0, false, false, false;
      requestedSize, processedBytes, audioQueue := 0, 0, [];
      chunks, Repr := [], {this};
    }

    /** notify: whether the waiting consumer is notified. */
    method Put(buffer: array<byte>, length: nat) returns (r: nat, notify: bool)
      requires Valid() && buffer !in Repr && length <= buffer.Length
      requires QueueSpec.CanPut(View())
      modifies this
      ensures Valid() && fresh(Repr - old(Repr))
      ensures r == length
      ensures View() == QueueSpec.Put(old(View()), buffer[..length])
      ensures View() == old(View()).(content := old(View()).content + buffer[..length])
      ensures notify <==> 0 < requestedSize <= |View().content|
    {
      var entry := new AudioQueueEntry(buffer, length);
      dataSize := dataSize + length;
      audioQueue := audioQueue + [entry];
      FlattenAppend(chunks, entry.Unread());
      chunks, Repr := chunks + [entry.Unread()], Repr + {entry, entry.buffer};
      notify := requestedSize > 0 && dataSize >= requestedSize;
      r := length;
    }

    method Get(buffer: array<byte>, requestedLength: nat) returns (r: int)
      requires Valid() && buffer !in Repr && requestedLength <= buffer.Length
      modifies Repr, buffer
      ensures Valid() && Repr <= old(Repr)
      ensures r == QueueSpec.GetCode(old(View()), requestedLength)
      ensures View() == QueueSpec.Get(old(View()), requestedLength)
      ensures var k := QueueSpec.Taken(old(View()), requestedLength);
              buffer[..] == old(View()).content[..k] + old(buffer[k..])
      // so a positive return value counts what has left the queue for the buffer, and falls short
      // of the request only when nothing is left; the others say that there was nothing
      ensures 0 < r ==>
                && r <= requestedLength && r <= |old(View()).content|
                && View() == old(View()).(content := old(View()).content[r..], processed := old(processedBytes) + r)
                && buffer[..r] == old(View()).content[..r]
                && (r == requestedLength || View().content == [])
      ensures r <= 0 ==> View() == old(View()) && buffer[..] == old(buffer[..])
      ensures r == -1 <==> old(ended) && old(View()).content == []
      ensures r == 0 <==> (old(View()).content == [] && !old(ended)) || (old(View()).content != [] && requestedLength == 0)
      ensures -1 <= r
    {
      if dataSize == 0 {
        r := if ended then -1 else 0;
      } else {
        var size := if dataSize < requestedLength then dataSize else requestedLength;
        GetSize(buffer, size);
        r := size;
      }
    }

    /** blockingGet up to its first evaluation of the loop condition. */
    method BlockingBegin(requestedLength: nat) returns (wait: bool)
      requires Valid() && !busy
      modifies this
      ensures Valid() && Repr == old(Repr)
      ensures View() == QueueSpec.BlockingBegin(old(View()), requestedLength)
      ensures View() == old(View()).(busy := true, requestedSize := requestedLength)
      ensures wait <==> QueueSpec.MustWait(View(), requestedLength)
      ensures wait <==> |View().content| < requestedLength && !ended && !terminating
    {
      busy, requestedSize := true, requestedLength;
      wait := dataSize < requestedLength && !terminating && !ended;
    }

    /** blockingGet from an evaluation of the loop condition on: None when it waits again. */
    method BlockingResume(buffer: array<byte>, requestedLength: nat) returns (r: Option<nat>)
      requires Valid() && buffer !in Repr && requestedLength <= buffer.Length
      modifies Repr, buffer
      ensures Valid() && Repr <= old(Repr)
      ensures r.None? <==> QueueSpec.MustWait(old(View()), requestedLength)
      ensures r.None? ==> View() == old(View()) && buffer[..] == old(buffer[..])
      ensures r.Some? ==>
                && r.value == QueueSpec.BlockingTaken(old(View()), requestedLength)
                && View() == QueueSpec.BlockingFinish(old(View()), requestedLength)
                && buffer[..] == old(View()).content[..r.value] + old(buffer[..])[r.value..]
      // so it waits for what can still come, returns early with the queue left busy, or delivers
      ensures r.None? <==> |old(View()).content| < requestedLength && !old(ended) && !old(terminating)
      ensures old(terminating) || (old(ended) && old(View()).content == []) ==> r == Some(0) && View() == old(View())
      ensures r.Some? && !old(terminating) && !(old(ended) && old(View()).content == []) ==>
                && (r.value == requestedLength || (r.value < requestedLength && View().content == []))
                && View() == old(View()).(content := old(View()).content[r.value..], busy := false,
                                          requestedSize := 0, processed := old(processedBytes) + r.value)
    {
      var length := requestedLength;
      if dataSize < length && !terminating && !ended {
        return None;
      }
      if terminating {
        return Some(0);
      }
      if ended {
        if dataSize == 0 {
          return Some(0);
        } else if dataSize < length {
          length := dataSize;
        }
      }
      GetSize(buffer, length);
      busy, requestedSize := false, 0;
      r := Some(length);
    }

    /** notifyAll: that every waiting consumer is notified, after the flag is up. */
    method MarkEnd() returns (notifyAll: bool)
      requires Valid()
      modifies this
      ensures Valid() && Repr == old(Repr)
      ensures View() == old(View()).(ended := true)
      ensures notifyAll
    {
      ended := true;
      notifyAll := true;
    }

    method Terminate() returns (notifyAll: bool)
      requires Valid()
      modifies this
      ensures Valid() && Repr == old(Repr)
      ensures View() == old(View()).(terminating := true)
      ensures notifyAll
    {
      terminating := true;
      notifyAll := true;
    }

    /** Moves the first requestedLength unread bytes to buffer, across chunk boundaries.
        A chunk of length zero is popped without progress in remaining. */
    method GetSize(buffer: array<byte>, requestedLength: nat)
      requires Valid() && buffer !in Repr && requestedLength <= buffer.Length
      requires requestedLength <= dataSize
      modifies Repr, buffer
      ensures Valid() && Repr == old(Repr)
      ensures View() == QueueSpec.Drop(old(View()), requestedLength)
      ensures View() == old(View()).(content := old(View()).content[requestedLength..],
                                     processed := old(processedBytes) + requestedLength)
      ensures buffer[..] == old(View()).content[..requestedLength] + old(buffer[..])[requestedLength..]
    {
      ghost var was, before := View(), buffer[..];
      ReadOut(buffer, requestedLength, was, before);
      processedBytes := processedBytes + requestedLength;
    }

    /** Its loop. */
    method ReadOut(buffer: array<byte>, requestedLength: nat, ghost was: QueueSpec.Queue, ghost before: seq<byte>)
      requires Valid() && buffer !in Repr && requestedLength <= buffer.Length
      requires requestedLength <= dataSize && HasRead(was, before, buffer, 0)
      modifies Repr, buffer
      ensures Valid() && Repr == old(Repr) && HasRead(was, before, buffer, requestedLength)
    {
      var remaining: nat := requestedLength;
      var offset: nat := 0;
      while remaining > 0
        invariant Valid() && Repr == old(Repr)
        invariant offset + remaining == requestedLength <= |was.content|
        invariant HasRead(was, before, buffer, offset)
        decreases remaining, |audioQueue|
      {
        var copiedLength := TakeFront(buffer, offset, remaining, was, before);
        offset := offset + copiedLength;
        remaining := remaining - copiedLength;
      }
    }

    /** The loop has moved offset bytes, and changed nothing else. */
    ghost predicate HasRead(was: QueueSpec.Queue, before: seq<byte>, buffer: array<byte>, offset: nat)
      requires Valid()
      reads this, Repr, buffer
    {
      && Copied(was.content, before, buffer[..], offset)
      && View() == was.(content := was.content[offset..])
    }

    /** One turn of that loop: reads the front chunk in part, or reads it out and pops it. */
    method TakeFront(buffer: array<byte>, offset: nat, remaining: nat, ghost was: QueueSpec.Queue, ghost before: seq<byte>)
      returns (copiedLength: nat)
      requires Valid() && buffer !in Repr && offset + remaining <= buffer.Length
      requires 0 < remaining <= dataSize
      requires HasRead(was, before, buffer, offset)
      modifies Repr, buffer
      ensures Valid() && Repr == old(Repr) && copiedLength <= remaining
      ensures 0 < copiedLength || |audioQueue| < |old(audioQueue)|
      ensures HasRead(was, before, buffer, offset + copiedLength)
    {
      var entry := audioQueue[0];
      ghost var now := buffer[..];
      if entry.length > remaining {
        ReadFront(buffer, offset, remaining);
        copiedLength := remaining;
      } else {
        copiedLength := entry.length;
        PopFront(buffer, offset);
      }
      CopyAdvances(was.content, before, now, buffer[..], offset, copiedLength);
    }

    /** The first branch: the request ends inside the front chunk. */
    method ReadFront(buffer: array<byte>, offset: nat, remaining: nat)
      requires Valid() && buffer !in Repr && offset + remaining <= buffer.Length
      requires audioQueue != [] && remaining < audioQueue[0].length
      modifies this, audioQueue[0], buffer
      ensures Valid() && Repr == old(Repr)
      ensures View() == old(View()).(content := old(View()).content[remaining..])
      ensures buffer[..] == old(buffer[..offset]) + old(View()).content[..remaining]
                            + old(buffer[offset + remaining..])
    {
      var entry := audioQueue[0];
      Copy(buffer, offset, entry.buffer, entry.offset, remaining);
      entry.offset := entry.offset + remaining;
      entry.length := entry.length - remaining;
      dataSize := dataSize - remaining;
      SplitFront(chunks, remaining);
      chunks := [chunks[0][remaining..]] + chunks[1..];
    }

    /** The second branch: the front chunk is used up. */
    method PopFront(buffer: array<byte>, offset: nat)
      requires Valid() && buffer !in Repr
      requires audioQueue != [] && offset + audioQueue[0].length <= buffer.Length
      modifies this, buffer
      ensures Valid() && Repr == old(Repr)
      ensures audioQueue == old(audioQueue)[1..]
      ensures var k := old(audioQueue[0].length);
              && k <= |old(View()).content|
              && View() == old(View()).(content := old(View()).content[k..])
              && buffer[..] == old(buffer[..offset]) + old(View()).content[..k] + old(buffer[offset + k..])
    {
      var entry := audioQueue[0];
      Copy(buffer, offset, entry.buffer, entry.offset, entry.length);
      SplitFront(chunks, entry.length);
      audioQueue := audioQueue[1..];
      dataSize := dataSize - entry.length;
      chunks := chunks[1..];
    }
  }

  /** Taking k bytes of the front chunk takes the first k bytes of the whole. */
  lemma SplitFront(chunks: seq<seq<byte>>, k: nat)
    requires chunks != [] && k <= |chunks[0]|
    ensures k <= |Flatten(chunks)| && Flatten(chunks)[..k] == chunks[0][..k]
    ensures Flatten([chunks[0][k..]] + chunks[1..]) == Flatten(chunks)[k..]
    ensures k == |chunks[0]| ==> Flatten(chunks[1..]) == Flatten(chunks)[k..]
  {
    assert ([chunks[0][k..]] + chunks[1..])[1..] == chunks[1..];
  }

  /** The buffer holds the first offset bytes of the content, and is as before from there on. */
  ghost predicate Copied(content: seq<byte>, before: seq<byte>, now: seq<byte>, offset: nat) {
    offset <= |content| && offset <= |before| && now == content[..offset] + before[offset..]
  }

  /** A buffer that holds the first offset bytes, once the next k are copied, holds offset + k. */
  lemma CopyAdvances(content: seq<byte>, before: seq<byte>, now: seq<byte>, next: seq<byte>,
                     offset: nat, k: nat)
    requires Copied(content, before, now, offset)
    requires offset + k <= |content| && offset + k <= |now|
    requires next == now[..offset] + content[offset..][..k] + now[offset + k..]
    ensures Copied(content, before, next, offset + k)
    ensures content[offset..][k..] == content[offset + k..]
  {
    assert content[offset..][..k] == content[offset..offset + k];
    assert now[..offset] == content[..offset] && now[offset + k..] == before[offset + k..];
  }
}
