/** The goroutine that turns Docker events and ticks into broadcasts. */
module Watcher {
  import opened Text
  import opened Models
  import opened Grouping
  import opened Containers
  import opened EventStream
  import opened Broker

  const CONTAINERS_EVENT := "containers"
  const UPDATE_EVENT := "container-update"

  datatype DockerMessage = DockerMessage(actorID: string, action: string)

  function UpdatePayload(msg: DockerMessage): string {
    "{\"id\":\"" + msg.actorID + "\",\"action\":\"" + msg.action + "\"}"
  }

  lemma Regroup(a: string, b: string, c: string, d: string, e: string)
    ensures a + b + c + d + e == a + (b + (c + (d + e)))
  {
  }

  lemma PayloadStart(rest: string)
    ensures Split("{\"id\":\"" + rest, '"') == ["{", "id", ":"] + Split(rest, '"')
  {
    var colon := ":" + ['"'] + rest;
    var id := "id" + ['"'] + colon;
    hide *;
    StartText(rest);
    PlainWords();
    SplitAtSeparator("{", '"', id);
    SplitAtSeparator("id", '"', colon);
    SplitAtSeparator(":", '"', rest);
  }

  lemma MiddleText(rest: string)
    ensures "\",\"action\":\"" + rest == ['"'] + ("," + ['"'] + ("action" + ['"'] + (":" + ['"'] + rest)))
  {
    hide *;
  }

  lemma StartText(rest: string)
    ensures "{\"id\":\"" + rest == "{" + ['"'] + ("id" + ['"'] + (":" + ['"'] + rest))
  {
    hide *;
  }

  lemma PayloadMiddle(id: string, rest: string)
    requires '"' !in id
    ensures Split(id + ("\",\"action\":\"" + rest), '"') == [id, ",", "action", ":"] + Split(rest, '"')
  {
    var colon := ":" + ['"'] + rest;
    var action := "action" + ['"'] + colon;
    var comma := "," + ['"'] + action;
    hide *;
    MiddleText(rest);
    ConcatAssoc(id, ['"'], comma);
    PlainWords();
    SplitAtSeparator(id, '"', comma);
    SplitAtSeparator(",", '"', action);
    SplitAtSeparator("action", '"', colon);
    SplitAtSeparator(":", '"', rest);
  }

  lemma PayloadEnd(action: string)
    requires '"' !in action
    ensures Split(action + "\"}", '"') == [action, "}"]
  {
    assert action + "\"}" == action + ['"'] + "}";
    hide *;
    PlainWords();
    SplitAtSeparator(action, '"', "}");
    SplitNoSeparator("}", '"');
  }

  lemma PlainWords()
    ensures '"' !in "{" && '"' !in "id" && '"' !in ":" && '"' !in "," && '"' !in "action" && '"' !in "}"
  {
  }

  /** Reading the payload back gives the id and the action, each under its own key, when neither has a quote. */
  lemma PayloadReadsBack(msg: DockerMessage)
    requires '"' !in msg.actorID && '"' !in msg.action
    ensures Split(UpdatePayload(msg), '"') == ["{", "id", ":", msg.actorID, ",", "action", ":", msg.action, "}"]
  {
    hide Split;
    Regroup("{\"id\":\"", msg.actorID, "\",\"action\":\"", msg.action, "\"}");
    PayloadStart(msg.actorID + ("\",\"action\":\"" + (msg.action + "\"}")));
    PayloadMiddle(msg.actorID, msg.action + "\"}");
    PayloadEnd(msg.action);
  }

  class Server {
    const containerService: ContainerService
    const sse: SSEBroker
    /** The container_list template: the HTML for these groups, or None when it fails. */
    const render: seq<ContainerGroup> -> Option<string>

    constructor (containerService: ContainerService, sse: SSEBroker, render: seq<ContainerGroup> -> Option<string>)
      ensures this.containerService == containerService && this.sse == sse && this.render == render
    {
      this.containerService := containerService;
      this.sse := sse;
      this.render := render;
    }

    ghost predicate Valid()
      reads containerService.cache, sse, sse.clients
    {
      containerService.Valid() && sse.Valid()
    }

    method BroadcastContainerList(clock: Clock, daemon: Result<seq<ApiContainer>>)
      returns (ghost groups: seq<ContainerGroup>)
      requires Valid() && (daemon.Ok? ==> ValidSnapshot(daemon.value))
      modifies containerService.cache, sse.clients
      ensures Valid() && sse.clients == old(sse.clients)
      ensures match old(Served(containerService.CachedList(), clock, daemon))
              case Ok(list) =>
                && IsGrouping(list, groups)
                && (render(groups).None? ==> forall ch | ch in sse.clients :: ch.buf == old(ch.buf))
                && (render(groups).Some? ==>
                      forall ch | ch in sse.clients ::
                        ch.buf == Offered(old(ch.buf), Frame("containers", render(groups).value)))
              case Err(_) => forall ch | ch in sse.clients :: ch.buf == old(ch.buf)
    {
      hide Served, NextView, IsGrouping, Frame;
      var listed := containerService.ListGrouped(clock, daemon);
      groups := [];
      if listed.Err? {
        return;
      }
      groups := listed.value;
      var page := render(listed.value);
      if page.None? {
        return;
      }
      sse.Broadcast(CONTAINERS_EVENT, page.value);
    }

    /**
     With no other List call in between, every client with free slots is sent the grouping of
     the daemon's present containers, whatever the cache held, and then the targeted update.
     */
    method HandleDockerEvent(msg: DockerMessage, clock: Clock, daemon: Result<seq<ApiContainer>>)
      returns (ghost groups: seq<ContainerGroup>)
      requires Valid() && (daemon.Ok? ==> ValidSnapshot(daemon.value))
      modifies containerService.cache, sse.clients
      ensures Valid() && sse.clients == old(sse.clients)
      ensures match daemon
              case Ok(api) =>
                && IsGrouping(Visible(api, clock.read), groups)
                && (forall ch | ch in sse.clients ::
                      var update := Frame("container-update", UpdatePayload(msg));
                      var listed := if render(groups).None? then old(ch.buf)
                                    else Offered(old(ch.buf), Frame("containers", render(groups).value));
                      ch.buf == if msg.actorID == "" then listed else Offered(listed, update))
              case Err(_) =>
                forall ch | ch in sse.clients ::
                  ch.buf == if msg.actorID == "" then old(ch.buf)
                            else Offered(old(ch.buf), Frame("container-update", UpdatePayload(msg)))
    {
      hide Visible, IsGrouping, Frame;
      containerService.InvalidateCache();
      groups := BroadcastContainerList(clock, daemon);
      if msg.actorID != "" {
        sse.Broadcast(UPDATE_EVENT, UpdatePayload(msg));
      }
    }
  }
}
