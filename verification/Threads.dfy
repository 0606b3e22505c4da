/**
  Comment trees and group-post trees (handlers/comments.go, handlers/groupposts.go): nested
  replies with a cached root, edits inside a grace window, and tombstones. Comments belong to an
  episode and posts to a group; the trees follow the same rules.
 */
module Threads {
  import opened Common

  type UserId = int
  datatype Scope = Episode(uuid: string) | Group(id: int)

  datatype Node = Node(
    scope: Scope, parent: Option<nat>, root: Option<nat>,
    author: Option<UserId>, text: string, createdAt: int, removed: bool)

  /** `next` is the id the database will hand out; ids only grow. */
  datatype State = State(nodes: map<nat, Node>, next: nat)

  const EDIT_GRACE := 300

  /**
    `admitted` is the gate: enough of the episode played for a top-level comment, membership for
    any post. A comment that replies has none. `blocked` says that author and replier block each other; `owner` that the
    caller owns the group a post is in.
   */
  datatype Event =
    | Submit(user: UserId, scope: Scope, parent: Option<nat>, text: string, admitted: bool, blocked: bool, now: int)
    | Edit(user: UserId, id: nat, text: string, now: int)
    | Delete(user: UserId, id: nat, owner: bool)
    | Erase(user: UserId)
    | DropScope(scope: Scope)

  predicate HasReplies(s: State, id: nat) {
    exists r :: r in s.nodes && s.nodes[r].parent == Some(id)
  }

  function Tombstone(n: Node): Node {
    n.(author := None, text := "", removed := true)
  }

  predicate Enabled(s: State, e: Event) {
    match e
    case Submit(u, scope, parent, _, admitted, blocked, _) =>
      && (parent.None? || scope.Group? ==> admitted)
      && (parent.Some? ==>
            && parent.value in s.nodes && s.nodes[parent.value].scope == scope && !s.nodes[parent.value].removed
            && !(blocked && s.nodes[parent.value].author.Some? && s.nodes[parent.value].author.value != u))
    case Edit(u, id, _, now) =>
      && id in s.nodes && !s.nodes[id].removed && s.nodes[id].author == Some(u)
      && !HasReplies(s, id) && now - s.nodes[id].createdAt <= EDIT_GRACE
    case Delete(u, id, owner) =>
      && id in s.nodes && !s.nodes[id].removed
      && (s.nodes[id].author == Some(u) || (owner && s.nodes[id].scope.Group?))
    case Erase(_) => true
    case DropScope(_) => true
  }

  /** The handler's cached root: the parent's root, or the parent itself. */
  function RootUnder(s: State, parent: Option<nat>): Option<nat>
    requires parent.Some? ==> parent.value in s.nodes
  {
    if parent.None? then None
    else if s.nodes[parent.value].root.Some? then s.nodes[parent.value].root
    else parent
  }

  function Step(s: State, e: Event): State {
    if !Enabled(s, e) then s else
    match e
    case Submit(u, scope, parent, text, _, _, now) =>
      State(s.nodes[s.next := Node(scope, parent, RootUnder(s, parent), Some(u), text, now, false)], s.next + 1)
    case Edit(_, id, text, _) => s.(nodes := s.nodes[id := s.nodes[id].(text := text)])
    case Delete(_, id, _) => s.(nodes := s.nodes[id := Tombstone(s.nodes[id])])
    case Erase(u) => s.(nodes := map i | i in s.nodes ::
        if s.nodes[i].author == Some(u) && !s.nodes[i].removed then Tombstone(s.nodes[i]) else s.nodes[i])
    case DropScope(scope) => s.(nodes := map i | i in s.nodes && s.nodes[i].scope != scope :: s.nodes[i])
  }

  function Run(s: State, events: seq<Event>): State
    decreases |events|
  {
    if events == [] then s else Run(Step(s, events[0]), events[1..])
  }

  const INITIAL := State(map[], 0)

  // ---------------------------------------------------------------- walking up

  /** The top reached by following parents. */
  function Top(nodes: map<nat, Node>, id: nat): nat {
    if id in nodes && nodes[id].parent.Some? && nodes[id].parent.value < id then Top(nodes, nodes[id].parent.value)
      else id
  }

  /** The forest's shape, its cached roots, and its tombstones. */
  ghost predicate Rooted(s: State) {
    && (forall i :: i in s.nodes ==> i < s.next)
    && (forall i :: i in s.nodes && s.nodes[i].parent.Some? ==>
          s.nodes[i].parent.value < i && s.nodes[i].parent.value in s.nodes
            && s.nodes[s.nodes[i].parent.value].scope == s.nodes[i].scope)
    && (forall i :: i in s.nodes ==> s.nodes[i].root == if s.nodes[i].parent.Some? then Some(Top(s.nodes, i)) else None)
    && (forall i :: i in s.nodes ==> (s.nodes[i].removed <==> s.nodes[i].author.None?))
    && (forall i :: i in s.nodes && s.nodes[i].removed ==> s.nodes[i].text == "")
  }

  /** Walking up does not notice changes that keep the parents of the nodes it meets. */
  lemma {:induction false} TopStable(nodes: map<nat, Node>, nodes': map<nat, Node>, id: nat, scope: Scope)
    requires id in nodes && nodes[id].scope == scope
    requires forall i :: i in nodes && nodes[i].scope == scope && i <= id ==>
               i in nodes' && nodes'[i].parent == nodes[i].parent
    requires forall i :: i in nodes && nodes[i].parent.Some? ==>
               nodes[i].parent.value in nodes && nodes[nodes[i].parent.value].scope == nodes[i].scope
    ensures Top(nodes', id) == Top(nodes, id)
    decreases id
  {
    if nodes[id].parent.Some? && nodes[id].parent.value < id {
      TopStable(nodes, nodes', nodes[id].parent.value, scope);
    }
  }

  /** The top is a node without a parent, in the same scope. */
  lemma {:induction false} TopIsTop(s: State, id: nat)
    requires Rooted(s) && id in s.nodes
    ensures Top(s.nodes, id) in s.nodes && s.nodes[Top(s.nodes, id)].parent == None
            && s.nodes[Top(s.nodes, id)].scope == s.nodes[id].scope
    decreases id
  {
    if s.nodes[id].parent.Some? {
      TopIsTop(s, s.nodes[id].parent.value);
    }
  }

  lemma SubmitKeepsTops(s: State, e: Event)
    requires Rooted(s) && e.Submit? && Enabled(s, e)
    ensures forall i :: i in s.nodes ==> Top(Step(s, e).nodes, i) == Top(s.nodes, i)
    ensures e.parent.Some? ==> Top(Step(s, e).nodes, s.next) == Top(s.nodes, e.parent.value)
  {
    var s' := Step(s, e);
    forall i | i in s.nodes ensures Top(s'.nodes, i) == Top(s.nodes, i) {
      TopStable(s.nodes, s'.nodes, i, s.nodes[i].scope);
    }
  }

  lemma SubmitKeepsRooted(s: State, e: Event)
    requires Rooted(s) && e.Submit? && Enabled(s, e)
    ensures Rooted(Step(s, e))
  {
    SubmitKeepsTops(s, e);
  }

  /** Every node left keeps its place, and only whole scopes disappear. */
  ghost predicate KeepsShape(nodes: map<nat, Node>, nodes': map<nat, Node>) {
    && (forall i :: i in nodes' ==>
        i in nodes && nodes'[i].parent == nodes[i].parent && nodes'[i].root == nodes[i].root
          && nodes'[i].scope == nodes[i].scope)
    && (forall i, j :: i in nodes && j in nodes' && nodes[i].scope == nodes'[j].scope ==> i in nodes')
  }

  lemma ReshapedKeepsRooted(s: State, s': State)
    requires Rooted(s) && s'.next == s.next && KeepsShape(s.nodes, s'.nodes)
    requires forall i :: i in s'.nodes ==> (s'.nodes[i].removed <==> s'.nodes[i].author.None?)
    requires forall i :: i in s'.nodes && s'.nodes[i].removed ==> s'.nodes[i].text == ""
    ensures Rooted(s')
  {
    forall i | i in s'.nodes ensures Top(s'.nodes, i) == Top(s.nodes, i) {
      TopStable(s.nodes, s'.nodes, i, s.nodes[i].scope);
    }
  }

  lemma StepKeepsShape(s: State, e: Event)
    requires Rooted(s) && !e.Submit?
    ensures Step(s, e).next == s.next && KeepsShape(s.nodes, Step(s, e).nodes)
  {
  }

  lemma StepKeepsTombstones(s: State, e: Event)
    requires Rooted(s) && !e.Submit?
    ensures forall i :: i in Step(s, e).nodes ==> (Step(s, e).nodes[i].removed <==> Step(s, e).nodes[i].author.None?)
    ensures forall i :: i in Step(s, e).nodes && Step(s, e).nodes[i].removed ==> Step(s, e).nodes[i].text == ""
  {
  }

  lemma StepKeepsRooted(s: State, e: Event)
    requires Rooted(s)
    ensures Rooted(Step(s, e))
  {
    if e.Submit? && Enabled(s, e) {
      SubmitKeepsRooted(s, e);
    } else if !e.Submit? {
      StepKeepsShape(s, e);
      StepKeepsTombstones(s, e);
      ReshapedKeepsRooted(s, Step(s, e));
    }
  }

  /** Main result: in every reachable forest the cached root is the top, in the node's own scope. */
  lemma {:induction false} RunKeepsRooted(s: State, events: seq<Event>)
    requires Rooted(s)
    ensures Rooted(Run(s, events))
    decreases |events|
  {
    if events != [] {
      StepKeepsRooted(s, events[0]);
      RunKeepsRooted(Step(s, events[0]), events[1..]);
    }
  }

  lemma CachedRootIsTop(events: seq<Event>, id: nat)
    requires id in Run(INITIAL, events).nodes
    ensures var s := Run(INITIAL, events);
            var n := s.nodes[id];
            && (n.root == None <==> n.parent == None)
            && (n.removed <==> n.author == None)
            && (n.root.Some? ==>
                n.root.value == Top(s.nodes, id) && n.root.value in s.nodes && s.nodes[n.root.value].parent == None
                                 && s.nodes[n.root.value].scope == n.scope)
  {
    RunKeepsRooted(INITIAL, events);
    TopIsTop(Run(INITIAL, events), id);
  }

  // ---------------------------------------------------------------- what each event does

  /** A reply needs a parent of its own scope that is there, and no block with its author unless it is one's own. */
  predicate MayReply(s: State, u: UserId, scope: Scope, parent: nat, blocked: bool) {
    && parent in s.nodes && s.nodes[parent].scope == scope && !s.nodes[parent].removed
    && (blocked ==> s.nodes[parent].author.None? || s.nodes[parent].author == Some(u))
  }

  /** A top-level entry needs its gate, a post membership as well; the entry is stored as given, unremoved. */
  lemma SubmitOutcome(s: State, u: UserId, scope: Scope, parent: Option<nat>, text: string, admitted: bool,
                      blocked: bool, now: int)
    ensures var s' := Step(s, Submit(u, scope, parent, text, admitted, blocked, now));
            if && (parent.None? || scope.Group? ==> admitted)
               && (parent.Some? ==> MayReply(s, u, scope, parent.value, blocked))
            then
              && s'.next == s.next + 1 && s'.nodes.Keys == s.nodes.Keys + {s.next}
              && (forall i :: i in s.nodes && i != s.next ==> s'.nodes[i] == s.nodes[i])
              && s'.nodes[s.next].scope == scope && s'.nodes[s.next].parent == parent
              && s'.nodes[s.next].author == Some(u) && s'.nodes[s.next].text == text
              && s'.nodes[s.next].createdAt == now && !s'.nodes[s.next].removed
            else s' == s
  {
  }

  /** Only the author edits, within five minutes, while nobody has replied; only the text changes. */
  lemma EditOutcome(s: State, u: UserId, id: nat, text: string, now: int)
    ensures var s' := Step(s, Edit(u, id, text, now));
            if && id in s.nodes && s.nodes[id].author == Some(u) && !s.nodes[id].removed
               && now <= s.nodes[id].createdAt + 300
               && (forall r :: r in s.nodes ==> s.nodes[r].parent != Some(id))
            then s' == s.(nodes := s.nodes[id := s.nodes[id].(text := text)])
            else s' == s
  {
  }

  /** The author, or the owner of the group, leaves a tombstone: no author, no text, the same place. */
  lemma DeleteOutcome(s: State, u: UserId, id: nat, owner: bool)
    ensures var s' := Step(s, Delete(u, id, owner));
            if && id in s.nodes && !s.nodes[id].removed
               && (s.nodes[id].author == Some(u) || (owner && s.nodes[id].scope.Group?))
            then
              var n := s.nodes[id];
              s' == s.(nodes := s.nodes[id := Node(n.scope, n.parent, n.root, None, "", n.createdAt, true)])
            else s' == s
  {
  }

  /** Erasure does that to everything of the author's; dropping a scope removes its entries and no others. */
  lemma SweepOutcome(s: State, u: UserId, scope: Scope, i: nat)
    ensures var s' := Step(s, Erase(u));
            && s'.next == s.next && (i in s'.nodes <==> i in s.nodes)
            && (i in s.nodes ==>
                  var n := s.nodes[i];
                  s'.nodes[i] == if n.author == Some(u) && !n.removed
                                 then Node(n.scope, n.parent, n.root, None, "", n.createdAt, true) else n)
    ensures var s' := Step(s, DropScope(scope));
            && s'.next == s.next && (i in s'.nodes <==> i in s.nodes && s.nodes[i].scope != scope)
            && (i in s'.nodes ==> s'.nodes[i] == s.nodes[i])
  {
  }

  // ---------------------------------------------------------------- a replied-to text

  /** The row is gone with its scope, unchanged up to losing its author and text, or untouched. */
  ghost predicate TextKept(s: State, s': State, id: nat) {
    id in s.nodes && id in s'.nodes ==>
      && s'.nodes[id].scope == s.nodes[id].scope && s'.nodes[id].parent == s.nodes[id].parent
      && (s'.nodes[id].text == s.nodes[id].text || (s'.nodes[id].removed && s'.nodes[id].text == ""))
      && (s.nodes[id].removed ==> s'.nodes[id].removed)
      && (s'.nodes[id].author == s.nodes[id].author || s'.nodes[id].author == None)
  }

  lemma StepKeepsReplies(s: State, e: Event, id: nat)
    requires Rooted(s) && HasReplies(s, id)
    ensures TextKept(s, Step(s, e), id)
    ensures id in Step(s, e).nodes ==> HasReplies(Step(s, e), id)
    ensures id !in Step(s, e).nodes ==> id < Step(s, e).next
  {
    var r :| r in s.nodes && s.nodes[r].parent == Some(id);
    if id in Step(s, e).nodes {
      assert r in Step(s, e).nodes && Step(s, e).nodes[r].parent == Some(id);
    }
  }

  lemma {:induction false} GoneForGood(s: State, events: seq<Event>, id: nat)
    requires id < s.next && id !in s.nodes
    ensures id !in Run(s, events).nodes
    decreases |events|
  {
    if events != [] {
      GoneForGood(Step(s, events[0]), events[1..], id);
    }
  }

  /** Main result: once a reply exists, the text it answers stays what it was or is wiped. */
  lemma {:induction false} RepliedTextFixed(s: State, events: seq<Event>, id: nat)
    requires Rooted(s) && HasReplies(s, id)
    ensures TextKept(s, Run(s, events), id)
    decreases |events|
  {
    if events != [] {
      var s' := Step(s, events[0]);
      StepKeepsRooted(s, events[0]);
      StepKeepsReplies(s, events[0], id);
      if id in s'.nodes {
        RepliedTextFixed(s', events[1..], id);
      } else {
        GoneForGood(s', events[1..], id);
      }
    }
  }

  // ---------------------------------------------------------------- the table

  class ThreadStore {
    var nodes: map<nat, Node>
    var next: nat

    ghost function View(): State
      reads this
    {
      State(nodes, next)
    }

    constructor ()
      ensures View() == INITIAL
    {
      nodes, next := map[], 0;
    }

    method SubmitEntry(u: UserId, scope: Scope, parent: Option<nat>, text: string,
                       admitted: bool, blocked: bool, now: int)
      returns (id: Option<nat>)
      modifies this
      ensures View() == Step(old(View()), Submit(u, scope, parent, text, admitted, blocked, now))
      ensures id.Some? <==> Enabled(old(View()), Submit(u, scope, parent, text, admitted, blocked, now))
      ensures id.Some? ==> id.value == old(next)
    {
      if scope.Group? && !admitted {
        return None;
      }
      var root := None;
      if parent.Some? {
        if parent.value !in nodes || nodes[parent.value].scope != scope || nodes[parent.value].removed {
          return None;
        }
        var p := nodes[parent.value];
        if p.author.Some? && p.author.value != u && blocked {
          return None;
        }
        root := if p.root.Some? then p.root else parent;
      } else if !admitted {
        return None;
      }
      nodes := nodes[next := Node(scope, parent, root, Some(u), text, now, false)];
      id := Some(next);
      next := next + 1;
    }

    method EditEntry(u: UserId, id: nat, text: string, now: int) returns (ok: bool)
      modifies this`nodes
      ensures View() == Step(old(View()), Edit(u, id, text, now)) && ok == Enabled(old(View()), Edit(u, id, text, now))
    {
      if id !in nodes || nodes[id].removed || nodes[id].author != Some(u) {
        return false;
      }
      var hasReplies := exists r :: r in nodes && nodes[r].parent == Some(id);
      if hasReplies || now - nodes[id].createdAt > EDIT_GRACE {
        return false;
      }
      nodes := nodes[id := nodes[id].(text := text)];
      return true;
    }

    /** The author's statement first, then the group owner's. */
    method DeleteEntry(u: UserId, id: nat, owner: bool) returns (affected: nat)
      modifies this`nodes
      ensures View() == Step(old(View()), Delete(u, id, owner))
      ensures affected == if Enabled(old(View()), Delete(u, id, owner)) then 1 else 0
    {
      affected := 0;
      if id in nodes && nodes[id].author == Some(u) && !nodes[id].removed {
        nodes := nodes[id := Tombstone(nodes[id])];
        affected := 1;
      }
      if affected == 0 && id in nodes && nodes[id].scope.Group? && owner && !nodes[id].removed {
        nodes := nodes[id := Tombstone(nodes[id])];
        affected := 1;
      }
    }

    method EraseEntries(u: UserId)
      modifies this`nodes
      ensures View() == Step(old(View()), Erase(u))
    {
      nodes := map i | i in nodes ::
          if nodes[i].author == Some(u) && !nodes[i].removed then Tombstone(nodes[i]) else nodes[i];
    }
  }
}
