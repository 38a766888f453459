/** What an upgrade adds: only properties that the schema declares and the stored object lacks. */
module UpgradeAdded {
  import opened JsonSyntax
  import opened Upgrade
  import opened UpgradeFills

  /** The stored tree has an object that lacks the declared property at `at`. */
  ghost predicate LackingAt(n: Node, raw: Schema, path: Path, at: Path, host: Host)
    decreases n, 1
  {
    n.Container? &&
    if n.isObject then LacksOwn(n.entries, Normalized(raw), path, at, host) || LackingMembers(n.entries, Normalized(raw), path, at, host)
    else LackingItems(n.entries, Normalized(raw), path, at, host)
  }

  ghost predicate LacksOwn(es: seq<Entry>, s: Option<Body>, path: Path, at: Path, host: Host) {
    exists p :: p in PropertiesOf(s) && at == path + [p.name] && forall i :: 0 <= i < |es| ==> NodeKey(es[i], host) != p.name
  }

  ghost predicate LackingMembers(es: seq<Entry>, s: Option<Body>, path: Path, at: Path, host: Host)
    decreases es, 0
  {
    exists i :: 0 <= i < |es| && LackingMember(es[i], s, path, at, host)
  }

  ghost predicate LackingMember(e: Entry, s: Option<Body>, path: Path, at: Path, host: Host)
    decreases e, 0
  {
    LackingAt(e.node, ChildSchema(s, NodeKey(e, host)), path + [NodeKey(e, host)], at, host)
  }

  ghost predicate LackingItems(es: seq<Entry>, s: Option<Body>, path: Path, at: Path, host: Host)
    decreases es, 0
  {
    exists i :: 0 <= i < |es| && LackingItem(es[i], i, s, path, at, host)
  }

  ghost predicate LackingItem(e: Entry, i: nat, s: Option<Body>, path: Path, at: Path, host: Host)
    decreases e, 0
  {
    LackingAt(e.node, ItemSchema(s, i), path + [IndexText(i)], at, host)
  }

  lemma OwnIsLacking(es: seq<CEntry>, s: Option<Body>, path: Path, host: Host, accepted: set<Path>, at: Path)
    requires WfCEntries(true, es) && LacksOne(at, PropertiesOf(s), WalkObject(es, s, path, host, accepted).0, path)
    ensures LacksOwn(EraseEntries(es), s, path, at, host)
  {
    hide WalkObject, EraseEntries, WfCEntries, PropertiesOf, NodeKey, Erase, Alike, Seen;
    var ws := WalkObject(es, s, path, host, accepted).0;
    var p :| p in PropertiesOf(s) && at == path + [p.name] && !Seen(ws, p.name);
    WalkedAlike(es, s, path, host, accepted);
    SeenIsHad(ws, EraseEntries(es), p.name, host);
  }

  /** Every path reported as added is a declared property that the stored object there lacks. */
  lemma {:induction false} AddedAreMissing(c: Cst, raw: Schema, path: Path, host: Host, accepted: set<Path>, at: Path)
    requires WfCst(c) && at in Walk(c, raw, path, host, accepted).report.added
    ensures LackingAt(Erase(c), raw, path, at, host)
    decreases c, 1
  {
    var s := Normalized(raw);
    if c.CContainer? {
      assert WfCEntries(c.isObject, c.entries);
      if c.isObject {
        var walked := WalkObject(c.entries, s, path, host, accepted);
        hide FinishObject, WalkObject, WfCEntries, Normalized, LackingMembers, LacksOwn, LacksOne, EraseEntries;
        FinishOwn(c, walked.0, walked.1, s, path, host, accepted, at);
        if at in walked.1.added {
          ObjectAdded(c.entries, s, path, host, accepted, at);
        } else {
          OwnIsLacking(c.entries, s, path, host, accepted, at);
        }
      } else {
        hide WalkArray, WfCEntries, Normalized, LackingItems, EraseEntries;
        ArrayAdded(c.entries, s, path, host, accepted, at);
      }
    }
  }

  lemma {:induction false} ObjectAdded(es: seq<CEntry>, s: Option<Body>, path: Path, host: Host, accepted: set<Path>, at: Path)
    requires WfCEntries(true, es) && at in WalkObject(es, s, path, host, accepted).1.added
    ensures LackingMembers(EraseEntries(es), s, path, at, host)
    decreases es, 0
  {
    if es != [] {
      var init, e := es[..|es| - 1], es[|es| - 1];
      assert WfCEntry(true, e) && WfCEntries(true, init);
      assert es == init + [e];
      var walked := WalkObject(init, s, path, host, accepted);
      hide WalkObject, WalkEntry, LackingMember, LackingMembers, EraseEntries, EraseEntry, ChildSchema, Forbids, WfCEntries, WfCst, LastWalked, KeyOf;
      WalkObjectSnoc(init, e, s, path, host, accepted);
      if at in walked.1.added {
        ObjectAdded(init, s, path, host, accepted, at);
      } else {
        MemberAdded(e, s, path, host, accepted, at);
      }
      LackingSnoc(init, e, s, path, at, host);
    }
  }

  lemma LackingSnoc(es: seq<CEntry>, e: CEntry, s: Option<Body>, path: Path, at: Path, host: Host)
    requires LackingMembers(EraseEntries(es), s, path, at, host) || LackingMember(EraseEntry(e), s, path, at, host)
    ensures LackingMembers(EraseEntries(es + [e]), s, path, at, host)
  {
    hide LackingMember, EraseEntries, EraseEntry;
    EraseSnoc(es, e);
    var all := EraseEntries(es) + [EraseEntry(e)];
    if LackingMembers(EraseEntries(es), s, path, at, host) {
      var i :| 0 <= i < |EraseEntries(es)| && LackingMember(EraseEntries(es)[i], s, path, at, host);
      assert all[i] == EraseEntries(es)[i];
    } else {
      assert all[|EraseEntries(es)|] == EraseEntry(e);
    }
  }

  lemma {:induction false} MemberAdded(e: CEntry, s: Option<Body>, path: Path, host: Host, accepted: set<Path>, at: Path)
    requires WfCEntry(true, e)
    requires at in WalkEntry(e, ChildSchema(s, KeyOf(e, host)), path + [KeyOf(e, host)], host, accepted).report.added
    ensures LackingMember(EraseEntry(e), s, path, at, host)
    decreases e, 0
  {
    hide ChildSchema, LackingAt, Walk;
    AddedAreMissing(e.value, ChildSchema(s, KeyOf(e, host)), path + [KeyOf(e, host)], host, accepted, at);
  }

  lemma {:induction false} ArrayAdded(es: seq<CEntry>, s: Option<Body>, path: Path, host: Host, accepted: set<Path>, at: Path)
    requires WfCEntries(false, es) && at in WalkArray(es, s, path, host, accepted).1.added
    ensures LackingItems(EraseEntries(es), s, path, at, host)
    decreases es, 0
  {
    if es != [] {
      var k := |es| - 1;
      var init, e := es[..k], es[k];
      assert WfCEntry(false, e) && WfCEntries(false, init);
      assert es == init + [e];
      var walked := WalkArray(init, s, path, host, accepted);
      WalkArraySnoc(init, e, s, path, host, accepted);
      EraseSnoc(init, e);
      hide WalkArray, WalkEntry, LackingItem, EraseEntries, ItemSchema, WfCEntries, WfCst, EraseEntry, IndexText;
      var all := EraseEntries(init) + [EraseEntry(e)];
      if at in walked.1.added {
        ArrayAdded(init, s, path, host, accepted, at);
        var i :| 0 <= i < |EraseEntries(init)| && LackingItem(EraseEntries(init)[i], i, s, path, at, host);
        assert all[i] == EraseEntries(init)[i];
      } else {
        ItemAdded(e, k, s, path, host, accepted, at);
        assert all[k] == EraseEntry(e);
      }
    }
  }

  lemma {:induction false} ItemAdded(e: CEntry, k: nat, s: Option<Body>, path: Path, host: Host, accepted: set<Path>, at: Path)
    requires WfCEntry(false, e) && at in WalkEntry(e, ItemSchema(s, k), path + [IndexText(k)], host, accepted).report.added
    ensures LackingItem(EraseEntry(e), k, s, path, at, host)
    decreases e, 0
  {
    hide ItemSchema, LackingAt, Walk, IndexText;
    AddedAreMissing(e.value, ItemSchema(s, k), path + [IndexText(k)], host, accepted, at);
  }
}
