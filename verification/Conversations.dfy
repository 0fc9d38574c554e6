/** The conversation and message tables, and the transactions of the memory client. */
module Conversations {
  import opened Options

  const VALID_ROLES := {"system", "user", "assistant", "tool"}

  /** What a message row says. A rotation row names both session keys. */
  datatype Body = Text(content: string) | Rotation(previous: string, next: string)

  datatype Entry = Entry(role: string, body: Body)

  datatype Conversation = Conversation(key: string, agent: string, active: bool)

  /** A message row; conversations are identified by their place in the table. */
  datatype Row = Row(conversation: nat, entry: Entry)

  datatype Tables = Tables(conversations: seq<Conversation>, rows: seq<Row>)

  predicate IsActive(c: Conversation, key: string, agent: string) {
    c.active && c.key == key && c.agent == agent
  }

  predicate HasActive(t: Tables, key: string, agent: string) {
    exists i :: 0 <= i < |t.conversations| && IsActive(t.conversations[i], key, agent)
  }

  /** No session key has two active conversations of one agent. */
  predicate OneActive(t: Tables) {
    forall i, j :: 0 <= i < j < |t.conversations| && t.conversations[i].active && t.conversations[j].active ==>
      t.conversations[i].key != t.conversations[j].key || t.conversations[i].agent != t.conversations[j].agent
  }

  /** Every message belongs to a conversation. */
  predicate Linked(t: Tables) {
    forall r :: 0 <= r < |t.rows| ==> t.rows[r].conversation < |t.conversations|
  }

  predicate ValidEntries(entries: seq<Entry>) {
    forall i :: 0 <= i < |entries| ==> entries[i].role in VALID_ROLES
  }

  /** A message with the session key and the agent it is filed under. */
  datatype Filing = Filing(key: string, agent: string, entry: Entry)

  /** The messages, oldest first, as a reader finds them. */
  function Filed(t: Tables): (f: seq<Filing>)
    requires Linked(t)
    ensures |f| == |t.rows|
  {
    seq(|t.rows|, r requires 0 <= r < |t.rows| =>
      var c := t.conversations[t.rows[r].conversation];
      Filing(c.key, c.agent, t.rows[r].entry))
  }

  function Filings(key: string, agent: string, entries: seq<Entry>): (f: seq<Filing>)
    ensures |f| == |entries|
  {
    seq(|entries|, i requires 0 <= i < |entries| => Filing(key, agent, entries[i]))
  }

  /** What a committed append does: every message filed under the key, which has an active
      conversation afterwards; nothing else moves. */
  ghost predicate Appended(t: Tables, key: string, agent: string, entries: seq<Entry>, t': Tables) {
    && Linked(t) && Linked(t')
    && Filed(t') == Filed(t) + Filings(key, agent, entries)
    && t.conversations <= t'.conversations
    && (OneActive(t) ==> OneActive(t'))
    && (forall k, a :: HasActive(t', k, a) <==> HasActive(t, k, a) || (k == key && a == agent))
  }

  /** What a committed close does: no conversation of the key is active afterwards; nothing else
      moves. */
  ghost predicate Closed(t: Tables, key: string, agent: string, t': Tables) {
    && Linked(t) && Linked(t')
    && Filed(t') == Filed(t)
    && (OneActive(t) ==> OneActive(t'))
    && (forall k, a :: HasActive(t', k, a) <==> HasActive(t, k, a) && !(k == key && a == agent))
  }

  /** The first active conversation of the key and agent. */
  function FindActive(cs: seq<Conversation>, key: string, agent: string): (r: Option<nat>)
    ensures r.Some? ==> r.value < |cs| && IsActive(cs[r.value], key, agent)
    ensures r.None? ==> forall i :: 0 <= i < |cs| ==> !IsActive(cs[i], key, agent)
  {
    if cs == [] then None
    else
      var n := |cs| - 1;
      var before := FindActive(cs[..n], key, agent);
      if before.Some? then before
      else if IsActive(cs[n], key, agent) then Some(n)
      else None
  }

  class Client {
    var tables: Tables

    constructor (tables: Tables)
      ensures this.tables == tables
    {
      this.tables := tables;
    }

    /** Finds or creates the active conversation. */
    method EnsureConversation(key: string, agent: string) returns (id: nat)
      requires Linked(tables)
      modifies this
      ensures id < |tables.conversations| && IsActive(tables.conversations[id], key, agent)
      ensures Appended(old(tables), key, agent, [], tables) && tables.rows == old(tables.rows)
    {
      ghost var t := tables;
      var found := FindActive(tables.conversations, key, agent);
      if found.Some? {
        id := found.value;
      } else {
        id := |tables.conversations|;
        tables := tables.(conversations := tables.conversations + [Conversation(key, agent, true)]);
        AddedConversation(t, key, agent, tables);
      }
      assert Filed(tables) == Filed(t) + Filings(key, agent, []);
    }

    /** One message in a transaction of its own; an invalid role is refused. */
    method AppendMessage(key: string, agent: string, entry: Entry) returns (ok: bool)
      requires Linked(tables)
      modifies this
      ensures ok <==> entry.role in VALID_ROLES
      ensures ok ==> Appended(old(tables), key, agent, [entry], tables)
      ensures !ok ==> tables == old(tables)
    {
      if entry.role !in VALID_ROLES {
        return false;
      }
      var id := EnsureConversation(key, agent);
      InsertMessage(id, entry, key, agent);
      return true;
    }

    method InsertMessage(id: nat, entry: Entry, ghost key: string, ghost agent: string)
      requires Linked(tables)
      requires id < |tables.conversations| && IsActive(tables.conversations[id], key, agent)
      modifies this
      ensures Appended(old(tables), key, agent, [entry], tables)
      ensures tables.conversations == old(tables.conversations)
    {
      ghost var t := tables;
      tables := tables.(rows := tables.rows + [Row(id, entry)]);
      assert Filed(tables) == Filed(t) + Filings(key, agent, [entry]);
    }

    /** Many messages in one transaction: one invalid role rolls all of them back; none opens nothing. */
    method AppendMany(key: string, agent: string, entries: seq<Entry>) returns (ok: bool)
      requires Linked(tables)
      modifies this
      ensures ok <==> ValidEntries(entries)
      ensures ok && entries != [] ==> Appended(old(tables), key, agent, entries, tables)
      ensures !ok || entries == [] ==> tables == old(tables)
    {
      hide Appended, HasActive, OneActive;
      if entries == [] {
        return true;
      }
      var before := tables;
      var id := EnsureConversation(key, agent);
      for i := 0 to |entries|
        invariant id < |tables.conversations| && IsActive(tables.conversations[id], key, agent)
        invariant Linked(tables) && Appended(before, key, agent, entries[..i], tables)
        invariant ValidEntries(entries[..i])
      {
        if entries[i].role !in VALID_ROLES {
          tables := before;
          return false;
        }
        ghost var t := tables;
        InsertMessage(id, entries[i], key, agent);
        AppendsCompose(before, key, agent, entries[..i], t, [entries[i]], tables);
        assert entries[..i + 1] == entries[..i] + [entries[i]];
      }
      assert entries[..|entries|] == entries;
      return true;
    }

    /** Marks every active conversation of the key and agent inactive. */
    method CloseBySessionKey(key: string, agent: string)
      requires Linked(tables)
      modifies this
      ensures Closed(old(tables), key, agent, tables)
    {
      ghost var t := tables;
      var cs := tables.conversations;
      tables := tables.(conversations := seq(|cs|, i requires 0 <= i < |cs| =>
        if IsActive(cs[i], key, agent) then cs[i].(active := false) else cs[i]));
      ClosedConversations(t, key, agent, tables);
    }
  }

  lemma AddedConversation(t: Tables, key: string, agent: string, t': Tables)
    requires !HasActive(t, key, agent)
    requires t'.conversations == t.conversations + [Conversation(key, agent, true)]
    ensures forall k, a :: HasActive(t', k, a) <==> HasActive(t, k, a) || (k == key && a == agent)
    ensures OneActive(t) ==> OneActive(t')
  {
    var n := |t.conversations|;
    assert t'.conversations[n] == Conversation(key, agent, true);
    forall k, a | HasActive(t, k, a) ensures HasActive(t', k, a) {
      var i :| 0 <= i < n && IsActive(t.conversations[i], k, a);
      assert IsActive(t'.conversations[i], k, a);
    }
    assert IsActive(t'.conversations[n], key, agent);
    assert forall i :: 0 <= i < n ==> !IsActive(t.conversations[i], key, agent);
  }

  lemma ClosedConversations(t: Tables, key: string, agent: string, t': Tables)
    requires Linked(t) && t'.rows == t.rows && |t'.conversations| == |t.conversations|
    requires forall i :: 0 <= i < |t.conversations| ==>
      t'.conversations[i] == if IsActive(t.conversations[i], key, agent) then t.conversations[i].(active := false)
                             else t.conversations[i]
    ensures Closed(t, key, agent, t')
  {
    assert Filed(t') == Filed(t);
    forall k, a | HasActive(t, k, a) && !(k == key && a == agent) ensures HasActive(t', k, a) {
      var i :| 0 <= i < |t.conversations| && IsActive(t.conversations[i], k, a);
      assert IsActive(t'.conversations[i], k, a);
    }
    forall k, a | HasActive(t', k, a) ensures HasActive(t, k, a) {
      var i :| 0 <= i < |t.conversations| && IsActive(t'.conversations[i], k, a);
      assert IsActive(t.conversations[i], k, a);
    }
  }

  lemma AppendsCompose(t: Tables, key: string, agent: string, es: seq<Entry>, t': Tables, fs: seq<Entry>, t'': Tables)
    requires Appended(t, key, agent, es, t') && Appended(t', key, agent, fs, t'')
    ensures Appended(t, key, agent, es + fs, t'')
  {
    assert Filings(key, agent, es + fs) == Filings(key, agent, es) + Filings(key, agent, fs);
    hide HasActive, OneActive;
  }
}
