/**
 * The frontend's per-agent event stores: each store holds a list of agent
 * events that only `addEvent` (append) and `clearEvents` (empty) replace,
 * and `stores` maps nine fixed workflow names to nine separate stores.
 */
module AgentStore {

  /** An agent event as the backend annotates it; routing reads only
      `workflowName`. */
  datatype AgentEventData = AgentEventData(workflowName: string, agent: string, text: string)

  /** One store made by `createAgentStore`. */
  class Store {
    var events: seq<AgentEventData>
    /** The name the store is registered under; a proof device only. */
    ghost const owner: string

    /** A new store starts with no events. */
    constructor (ghost owner: string)
      ensures events == [] && this.owner == owner
    {
      events := [];
      this.owner := owner;
    }

    /** `addEvent`: the new list is the old one with `e` at the end; earlier
        events stay where they were. */
    method AddEvent(e: AgentEventData)
      modifies this
      ensures events == old(events) + [e]
      ensures |events| == |old(events)| + 1 && events[..|old(events)|] == old(events)
    {
      events := events + [e];
    }

    /** `clearEvents`: the list is empty afterwards, whatever it held. */
    method ClearEvents()
      modifies this
      ensures events == []
    {
      events := [];
    }
  }

  /** The workflow names the `stores` object is keyed by. */
  const StoreNames: set<string> := {
    "Financial Report Workflow", "Research Manager", "Research Assistant",
    "Competitor Analysis", "Market Research", "Customer Insights",
    "Online Trends", "Podcast Creation", "Executive Summarizer"
  }

  lemma NineStoreNames()
    ensures |StoreNames| == 9
  {
  }

  /** The `stores` object: one store per name, no two names sharing one. */
  class Stores {
    const byName: map<string, Store>

    ghost predicate Valid() {
      byName.Keys == StoreNames && Separate()
    }

    /** No two names share a store: each store is registered under its own
        name only. */
    ghost predicate Separate() {
      forall n :: n in byName ==> byName[n].owner == n
    }

    /** The events of every store, by name. */
    ghost function Contents(): (c: map<string, seq<AgentEventData>>)
      reads byName.Values
      ensures c.Keys == byName.Keys
      ensures forall n :: n in byName ==> c[n] == byName[n].events
    {
      map n | n in byName :: byName[n].events
    }

    /** Nine fresh, empty stores. */
    constructor ()
      ensures Valid()
      ensures forall n :: n in byName ==> fresh(byName[n]) && byName[n].events == []
    {
      var s0 := new Store("Financial Report Workflow");
      var s1 := new Store("Research Manager");
      var s2 := new Store("Research Assistant");
      var s3 := new Store("Competitor Analysis");
      var s4 := new Store("Market Research");
      var s5 := new Store("Customer Insights");
      var s6 := new Store("Online Trends");
      var s7 := new Store("Podcast Creation");
      var s8 := new Store("Executive Summarizer");
      byName := map[
        "Financial Report Workflow" := s0, "Research Manager" := s1, "Research Assistant" := s2,
        "Competitor Analysis" := s3, "Market Research" := s4, "Customer Insights" := s5,
        "Online Trends" := s6, "Podcast Creation" := s7, "Executive Summarizer" := s8];
    }

    /** `stores[name].getState().addEvent(e)`: that store gains `e` at the
        end and every other store keeps its events. */
    method AddEvent(name: string, e: AgentEventData)
      requires Separate() && name in byName
      modifies byName[name]
      ensures byName[name].events == old(byName[name].events) + [e]
      ensures forall n :: n in byName && n != name ==> byName[n].events == old(byName[n].events)
      ensures Contents() == old(Contents())[name := old(Contents())[name] + [e]]
    {
      byName[name].AddEvent(e);
    }
  }
}
