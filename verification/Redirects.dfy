/** A redirect and its click event: Redirect of internal/httpapi/handlers.go and
    Build of internal/clicks/builder.go. */
module Redirects {
  import opened Wrappers
  import opened Links
  import opened Stores
  import opened Snowflake
  import opened LinkService

  datatype ClickEvent = ClickEvent(eventID: int, linkID: int, shortCode: string, originalURL: string)

  /** 302 to a location, or the error the domain answered with. */
  datatype Response = Found(location: string) | Failure(error: Error)

  class Builder {
    const ids: Generator

    constructor (ids: Generator)
      ensures this.ids == ids
    {
      this.ids := ids;
    }

    method Build(linkID: int, shortCode: string, originalURL: string) returns (r: Result<ClickEvent, int>)
      requires ids.Valid() && ids.CanReturn()
      modifies ids, ids.clock
      ensures ids.Valid() && ids.Stepped(old(ids.State()), old(ids.clock.pos))
      ensures match ids.Drawn(old(ids.State()), old(ids.clock.pos))
              case Issued(id) => r == Ok(ClickEvent(id, linkID, shortCode, originalURL))
              case ClockBackwards(byMs) => r == Err(byMs)
    {
      var drawn := ids.Next();
      if drawn.ClockBackwards? {
        return Err(drawn.byMs);
      }
      return Ok(ClickEvent(drawn.id, linkID, shortCode, originalURL));
    }
  }

  class Handlers {
    const svc: Service
    const builder: Option<Builder>  // None: clicks are not published
    var response: Option<Response>  // what the client was sent
    var published: seq<ClickEvent>

    constructor (svc: Service, builder: Option<Builder>)
      ensures this.svc == svc && this.builder == builder && response == None && published == []
    {
      this.svc, this.builder := svc, builder;
      response, published := None, [];
    }

    ghost predicate Valid()
      reads this, svc, svc.repo, svc.ids
    {
      && svc.Valid()
      // one generator is shared by the service and the click builder
      && (builder.Some? ==> builder.value.ids == svc.ids)
    }

    /** The response depends on Resolve alone. An event is published only after a
        redirect, carries the resolved link, hit or miss, and costs one ID of the
        generator that also numbers the links; a failed draw only loses the event. */
    method Redirect(code: string, io: ResolveIO)
      requires Valid()
      requires builder.Some? && ResolveAnswer(svc.repo.rows, svc.cache.entries, code, io).Ok? ==> svc.ids.CanReturn()
      modifies this, svc.cache, svc.ids, svc.ids.clock
      ensures Valid()
      ensures var r := ResolveAnswer(svc.repo.rows, old(svc.cache.entries), code, io);
              && response == Some(match r case Ok(res) => Found(res.originalURL) case Err(e) => Failure(e))
              && svc.cache.entries == ResolveCache(svc.repo.rows, old(svc.cache.entries), code, svc.cacheTTL, io)
              && (if r.Ok? && builder.Some? then
                    && svc.ids.Stepped(old(svc.ids.State()), old(svc.ids.clock.pos))
                    && published == old(published)
                       + (match svc.ids.Drawn(old(svc.ids.State()), old(svc.ids.clock.pos))
                          case Issued(id) => [ClickEvent(id, r.value.linkID, code, r.value.originalURL)]
                          case ClockBackwards(_) => [])
                  else published == old(published) && unchanged(svc.ids) && unchanged(svc.ids.clock))
    {
      var r := svc.Resolve(code, io);
      if r.Err? {
        response := Some(Failure(r.error));
        return;
      }
      response := Some(Found(r.value.originalURL));
      if builder.Some? {
        var b := builder.value;
        var ev := b.Build(r.value.linkID, code, r.value.originalURL);
        if ev.Ok? {
          published := published + [ev.value];
        }
      }
    }
  }
}
