// The read descriptor every reader of one generation shares: opened by the first, closed by the last.
module ReadShare {
  import opened Common

  class Descriptor {
    var isOpen: bool

    constructor ()
      ensures isOpen
    {
      isOpen := true;
    }

    method Close()
      requires isOpen
      modifies this
      ensures !isOpen
    {
      isOpen := false;
    }
  }

  class Handle {
    const share: Share
    const fd: Descriptor
    var closed: bool

    constructor (s: Share, d: Descriptor)
      ensures share == s && fd == d && !closed
    {
      share := s;
      fd := d;
      closed := false;
    }

    // Drops this handle's reference, exactly once however often it is called.
    method Close()
      requires share.Valid() && this in share.handles
      modifies this, share, share.Current()
      ensures share.Valid() && closed
      ensures share.handles == old(share.handles)
      ensures share.Outstanding() == old(share.Outstanding()) - {this}
      ensures old(closed) ==> share.refs == old(share.refs) && share.readFD == old(share.readFD)
      ensures !old(closed) ==> share.refs == old(share.refs) - 1
      ensures forall h | h in share.handles && h != this :: h.closed == old(h.closed)
      ensures share.Outstanding() == {} ==> !old(closed) ==> !fd.isOpen
      ensures share.Outstanding() != {} ==> share.readFD == old(share.readFD)
    {
      if closed {
        return;
      }
      assert this in share.Outstanding();
      closed := true;
      assert share.Outstanding() == old(share.Outstanding()) - {this};
      share.Release(this);
    }
  }

  class Share {
    var readFD: Descriptor?
    var refs: int
    ghost var handles: set<Handle>        // every handle ever given out

    // The handles that still hold a reference.
    ghost function Outstanding(): set<Handle>
      reads `handles, handles
    {
      set h | h in handles && !h.closed
    }

    ghost function Current(): set<object>
      reads `readFD
    {
      if readFD == null then {} else {readFD}
    }

    // The count is the number of outstanding handles; the descriptor is there, and open, exactly while there is one;
    // and it is the descriptor every outstanding handle captured.
    ghost predicate Valid()
      reads this, handles, Current()
    {
      && refs == |Outstanding()|
      && (readFD != null <==> Outstanding() != {})
      && (readFD != null ==> readFD.isOpen)
      && (forall h | h in handles :: h.share == this)
      && (forall h | h in Outstanding() :: h.fd == readFD)
    }

    constructor ()
      ensures Valid() && handles == {} && readFD == null && refs == 0
    {
      readFD, refs, handles := null, 0, {};
    }

    // A reader's view of the bytes. The descriptor is opened only when nobody holds one, by a call that may fail; a
    // failed open leaves nothing behind, so the next one opens afresh.
    method OpenRead(opens: bool) returns (h: Handle?)
      requires Valid()
      modifies this
      ensures Valid()
      ensures h == null <==> old(Outstanding()) == {} && !opens
      ensures h == null ==> readFD == old(readFD) && refs == old(refs) && handles == old(handles)
      ensures h != null ==> fresh(h) && h.share == this && !h.closed && handles == old(handles) + {h}
      ensures h != null ==> Outstanding() == old(Outstanding()) + {h} && h.fd == readFD && h.fd.isOpen
      ensures h != null && old(Outstanding()) != {} ==> readFD == old(readFD)
      ensures h != null && old(Outstanding()) == {} ==> fresh(readFD)
    {
      if refs == 0 {
        if !opens {
          return null;
        }
        readFD := new Descriptor();
      }
      refs := refs + 1;
      h := new Handle(this, readFD);
      handles := handles + {h};
      assert Outstanding() == old(Outstanding()) + {h};
    }

    // The last reader out closes the descriptor and clears it.
    method Release(h: Handle)
      requires h in handles && h.closed && h.fd == readFD && readFD != null && readFD.isOpen
      requires refs == |Outstanding()| + 1
      requires (forall k | k in handles :: k.share == this) && forall k | k in Outstanding() :: k.fd == readFD
      modifies this`refs, this`readFD, Current()
      ensures Valid() && refs == old(refs) - 1
      ensures refs == 0 ==> readFD == null && !old(readFD).isOpen
      ensures refs != 0 ==> readFD == old(readFD)
    {
      refs := refs - 1;
      assert refs == |Outstanding()|;
      if refs == 0 {
        assert Outstanding() == {};
        readFD.Close();
        readFD := null;
      }
    }
  }

  // A handle's reads run unlocked: the descriptor it captured is open, and is the current one, until it is closed.
  lemma CapturedDescriptorIsOpen(s: Share, h: Handle)
    requires s.Valid() && h in s.handles && !h.closed
    ensures s.readFD == h.fd && h.fd.isOpen && s.refs > 0
  {
    assert h in s.Outstanding();
  }

  // Reopening after every reader has gone opens a descriptor of its own, whatever became of the last one.
  method ReadAgain(s: Share, h: Handle) returns (k: Handle?)
    requires s.Valid() && s.Outstanding() == {h}
    modifies h, s, s.Current()
    ensures s.Valid() && k != null && k.fd != h.fd && k.fd.isOpen && !h.fd.isOpen && s.Outstanding() == {k}
  {
    assert h in s.handles && h.share == s;
    CapturedDescriptorIsOpen(s, h);
    h.Close();
    k := s.OpenRead(true);
  }
}
