/** The display connection, as the overlay sees it: an object that records every
    request sent on it and answers the three kinds of question the overlay asks
    (a fresh resource id, an atom, a window's children) from tables the server
    is assumed to hold. */
module XServer {
  import opened Wrappers
  import opened XProto

  /** Why a setup step or the frame loop stops. The first three are errors the
      connection reports; the last three are panics of an `unwrap` or of an
      unsigned subtraction, which end the process just the same. */
  datatype Failure =
    | IdsExhausted
    | AtomReplyError(name: string)
    | QueryTreeReplyError(window: Window)
    | NoDepth32
    | NoVisual
    | ScreenTooSmall

  class Connection {
    /** Every request sent on the connection, oldest first. */
    var log: seq<Request>
    /** The resource ids the client's allocator will still hand out, in order. */
    var freeIds: seq<XId>
    /** The server's atom table; InternAtom on a name missing here gets an error reply. */
    var atoms: map<string, Atom>
    /** QueryTree replies: a window's children in bottom-to-top stacking order.
        A window missing here gets an error reply. */
    var trees: map<Window, seq<Window>>

    constructor (ids: seq<XId>, atoms: map<string, Atom>, trees: map<Window, seq<Window>>)
      ensures log == [] && freeIds == ids && this.atoms == atoms && this.trees == trees
    {
      log := [];
      freeIds := ids;
      this.atoms := atoms;
      this.trees := trees;
    }

    /** Sends a request that has no reply. */
    method Send(request: Request)
      modifies this`log
      ensures log == old(log) + [request]
    {
      log := log + [request];
    }

    /** Allocates a resource id on the client side; no request is sent. */
    method GenerateId() returns (id: Result<XId, Failure>)
      modifies this`freeIds
      ensures old(freeIds) == [] ==> id == Err(IdsExhausted) && freeIds == []
      ensures old(freeIds) != [] ==> id == Ok(old(freeIds)[0]) && freeIds == old(freeIds)[1..]
    {
      if freeIds == [] {
        id := Err(IdsExhausted);
      } else {
        id := Ok(freeIds[0]);
        freeIds := freeIds[1..];
      }
    }

    /** Sends InternAtom and waits for its reply. */
    method InternAtom(onlyIfExists: bool, name: string) returns (atom: Result<Atom, Failure>)
      modifies this`log
      ensures log == old(log) + [Request.InternAtom(onlyIfExists, name)]
      ensures atom == if name in atoms then Ok(atoms[name]) else Err(AtomReplyError(name))
    {
      log := log + [Request.InternAtom(onlyIfExists, name)];
      atom := if name in atoms then Ok(atoms[name]) else Err(AtomReplyError(name));
    }

    /** Sends QueryTree and waits for its reply: the window's children. */
    method QueryTree(window: Window) returns (children: Result<seq<Window>, Failure>)
      modifies this`log
      ensures log == old(log) + [Request.QueryTree(window)]
      ensures children == if window in trees then Ok(trees[window]) else Err(QueryTreeReplyError(window))
    {
      log := log + [Request.QueryTree(window)];
      children := if window in trees then Ok(trees[window]) else Err(QueryTreeReplyError(window));
    }
  }
}
