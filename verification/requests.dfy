/** The request queue of server.c: a singly linked list of pending
    connections with a head pointer (`requests`), a tail pointer
    (`last_request`) and a count (`num_requests`). The acceptor appends
    at the tail and the workers take from the head. The lock and the
    condition variable around it are not modelled: each operation is one
    atomic step. */
module Requests {

  /** One `struct Request`: its number and socket never change after
      creation; only the link does. */
  class Request {
    const number: int
    const sockfd: int
    var next: Request?

    constructor (sockfd: int, number: int)
      ensures this.sockfd == sockfd && this.number == number && next == null
    {
      this.sockfd := sockfd;
      this.number := number;
      next := null;
    }
  }

  /** The `(number, sockfd)` pairs held by a run of nodes, in order. */
  ghost function Items(ns: seq<Request>): seq<(int, int)> {
    seq(|ns|, i requires 0 <= i < |ns| => (ns[i].number, ns[i].sockfd))
  }

  class Queue {
    var requests: Request?
    var lastRequest: Request?
    var numRequests: int
    /** The nodes of the list, head first. */
    ghost var nodes: seq<Request>

    /** The list from `requests` follows `next` through `nodes` and ends at
        `lastRequest`, whose link is null; the count is the list's length. */
    ghost predicate Valid()
      reads this, nodes
    {
      && numRequests == |nodes|
      && (nodes == [] ==> requests == null && lastRequest == null)
      && (nodes != [] ==>
            requests == nodes[0] && lastRequest == nodes[|nodes| - 1] && lastRequest.next == null)
      && (forall i :: 0 <= i < |nodes| - 1 ==> nodes[i].next == nodes[i + 1])
    }

    /** The queued connections as `(number, sockfd)` pairs, oldest first. */
    ghost function Contents(): seq<(int, int)>
      reads this
    {
      Items(nodes)
    }

    /** The empty queue the server starts with. */
    constructor ()
      ensures Valid() && nodes == [] && numRequests == 0
    {
      requests, lastRequest, numRequests := null, null, 0;
      nodes := [];
    }

    /** `addRequest`: link a new node after the tail and count it. */
    method AddRequest(sockfd: int, number: int)
      requires Valid()
      modifies this, lastRequest
      ensures Valid()
      ensures Contents() == old(Contents()) + [(number, sockfd)]
      ensures numRequests == old(numRequests) + 1
      ensures |nodes| == old(|nodes|) + 1 && nodes[..old(|nodes|)] == old(nodes)
      ensures fresh(nodes[|nodes| - 1]) && lastRequest == nodes[|nodes| - 1]
    {
      var request := new Request(sockfd, number);
      if numRequests == 0 {
        requests := request;
        lastRequest := request;
      } else {
        lastRequest.next := request;
        lastRequest := request;
      }
      numRequests := numRequests + 1;
      nodes := nodes + [request];
    }

    /** `getRequest`: unlink and return the head, or return null and change
        nothing when the queue is empty. */
    method GetRequest() returns (request: Request?)
      requires Valid()
      modifies this
      ensures Valid()
      ensures old(numRequests) == 0 ==>
        request == null && nodes == old(nodes) && numRequests == 0
      ensures old(numRequests) > 0 ==>
        && request == old(nodes[0])
        && (request.number, request.sockfd) == old(Contents())[0]
        && nodes == old(nodes[1..])
        && Contents() == old(Contents())[1..]
        && numRequests == old(numRequests) - 1
      ensures lastRequest == null <==> numRequests == 0
    {
      if numRequests > 0 {
        request := requests;
        requests := request.next;
        if requests == null {
          lastRequest := null;
        }
        numRequests := numRequests - 1;
        nodes := nodes[1..];
      } else {
        request := null;
      }
    }
  }
}
