/**
  Rewriting and routing together: every reference in the playlist a viewer gets leads back to the
  access point and token the playlist was asked for with, and to the resolved target it stands for.
 */
module GatewayLinks {
  import opened Common
  import opened Strings
  import opened Playlist
  import opened Routing
  import opened PublicPath

  function TagRefs(t: Tag): seq<string> {
    match t
    case End(_) => []
    case Ref(_, uri, rest) => [uri] + TagRefs(rest)
  }

  function LineRefs(l: Line): seq<string> {
    match l
    case Blank => []
    case Tagged(tag) => TagRefs(tag)
    case Uri(uri) => [uri]
  }

  predicate Unbroken(s: string) {
    QUOTE !in s && '\n' !in s && '\r' !in s
  }

  /** An extension that does not break the playlist it is written into. */
  predicate GoodTarget(target: Url) {
    Unbroken(KeptExt(target.path))
  }

  predicate GoodRefs(refs: seq<string>, resolve: Resolver) {
    forall k :: 0 <= k < |refs| && resolve(refs[k]).Some? ==> GoodTarget(resolve(refs[k]).value)
  }

  /** One request for a playlist: its access point was found and admitted under this prefix. */
  datatype Request = Request(store: Store, check: Check, codec: Codec, prefix: string, ap: AccessPoint, token: string)

  ghost predicate Granted(q: Request) {
    && Lawful(q.codec) && ProperPrefix(q.prefix) && Unbroken(q.prefix)
    && ResolvePrefix(q.store, q.prefix) == Found(q.ap, q.token) && q.check(q.ap, q.token) == Admit
  }

  function Encoding(q: Request): Encoder {
    EncodeRef(q.codec, q.prefix, q.ap.id)
  }

  /**
    Following `link` fetches what `uri` stands for, under the same credential, exactly if the
    extension of that target survives.
   */
  predicate LeadsTo(q: Request, link: string, uri: string, resolve: Resolver) {
    && resolve(uri).Some?
    && (Follow(q.store, q.check, q.codec, link) == Resource(q.ap, q.token, q.prefix, resolve(uri).value.text)
        <==> ExtSurvives(resolve(uri).value.path))
  }

  predicate AllLead(q: Request, links: seq<string>, uris: seq<string>, resolve: Resolver) {
    |links| == |uris| && forall k :: 0 <= k < |uris| ==> LeadsTo(q, links[k], uris[k], resolve)
  }

  lemma ProxyLeads(q: Request, uri: string, resolve: Resolver)
    requires Granted(q) && Proxy(resolve, Encoding(q), uri).Some? && GoodTarget(resolve(uri).value)
    ensures LeadsTo(q, Proxy(resolve, Encoding(q), uri).value, uri, resolve)
    ensures CleanReference(Proxy(resolve, Encoding(q), uri).value)
  {
    var target := resolve(uri).value;
    ReferenceComesBack(q.store, q.check, q.codec, q.prefix, target, q.ap, q.token);
    Opened(q.codec, target.text, q.ap.id);
    LinkIsClean(q.prefix, q.codec.encode(target.text, q.ap.id).value, KeptExt(target.path));
  }

  lemma LinkIsClean(prefix: string, blob: string, ext: string)
    requires Unbroken(prefix) && Unbroken(blob) && Unbroken(ext)
    ensures CleanReference(Link(prefix, blob, ext))
  {
  }

  lemma {:induction false} TagIsClean(q: Request, t: Tag, resolve: Resolver)
    requires Granted(q) && GoodRefs(TagRefs(t), resolve)
    ensures CleanTag(t, resolve, Encoding(q))
    decreases t
  {
    if t.Ref? {
      assert TagRefs(t)[0] == t.uri && TagRefs(t)[1..] == TagRefs(t.rest);
      assert forall k :: 0 <= k < |TagRefs(t.rest)| ==> TagRefs(t.rest)[k] == TagRefs(t)[k + 1];
      if Proxy(resolve, Encoding(q), t.uri).Some? {
        ProxyLeads(q, t.uri, resolve);
      }
      TagIsClean(q, t.rest, resolve);
    }
  }

  lemma {:induction false} TagLeads(q: Request, t: Tag, resolve: Resolver)
    requires Granted(q) && GoodRefs(TagRefs(t), resolve) && Replace(t, resolve, Encoding(q)).Some?
    ensures AllLead(q, TagRefs(Replace(t, resolve, Encoding(q)).value), TagRefs(t), resolve)
    decreases t
  {
    if t.Ref? {
      assert TagRefs(t)[0] == t.uri && TagRefs(t)[1..] == TagRefs(t.rest);
      assert forall k :: 0 <= k < |TagRefs(t.rest)| ==> TagRefs(t.rest)[k] == TagRefs(t)[k + 1];
      ProxyLeads(q, t.uri, resolve);
      TagLeads(q, t.rest, resolve);
      OneMoreLeads(q, Proxy(resolve, Encoding(q), t.uri).value, t.uri, TagRefs(Replace(t.rest, resolve, Encoding(q)).value), TagRefs(t.rest), resolve);
    }
  }

  lemma OneMoreLeads(q: Request, link: string, uri: string, links: seq<string>, uris: seq<string>, resolve: Resolver)
    requires LeadsTo(q, link, uri, resolve) && AllLead(q, links, uris, resolve)
    ensures AllLead(q, [link] + links, [uri] + uris, resolve)
  {
    OneMorePair((l, u) => LeadsTo(q, l, u, resolve), link, uri, links, uris);
  }

  lemma OneMorePair(holds: (string, string) -> bool, x: string, y: string, xs: seq<string>, ys: seq<string>)
    requires holds(x, y) && |xs| == |ys| && forall k :: 0 <= k < |xs| ==> holds(xs[k], ys[k])
    ensures forall k :: 0 <= k < |[x] + xs| ==> holds(([x] + xs)[k], ([y] + ys)[k])
  {
  }

  lemma LineLeads(q: Request, l: Line, resolve: Resolver)
    requires Granted(q) && GoodRefs(LineRefs(l), resolve) && ReplaceLine(l, resolve, Encoding(q)).Some?
    ensures AllLead(q, LineRefs(ReplaceLine(l, resolve, Encoding(q)).value), LineRefs(l), resolve)
  {
    match l
    case Blank =>
    case Tagged(tag) => TagLeads(q, tag, resolve);
    case Uri(uri) =>
      assert LineRefs(l)[0] == uri;
      ProxyLeads(q, uri, resolve);
  }

  lemma TextIsClean(q: Request, text: string, resolve: Resolver)
    requires Granted(q)
    requires forall i :: 0 <= i < |Read(text)| ==> GoodRefs(LineRefs(Read(text)[i]), resolve)
    ensures CleanText(text, resolve, Encoding(q))
  {
    forall i | 0 <= i < |Read(text)| ensures CleanLine(Read(text)[i], resolve, Encoding(q)) {
      var l := Read(text)[i];
      match l
      case Blank =>
      case Tagged(tag) => TagIsClean(q, tag, resolve);
      case Uri(uri) =>
        assert LineRefs(l)[0] == uri;
        if Proxy(resolve, Encoding(q), uri).Some? {
          ProxyLeads(q, uri, resolve);
        }
    }
  }

  /**
    The playlist a viewer gets has the lines of the source's playlist, and each of its references,
    when followed, fetches exactly the target it replaced, under the credential of this request,
    exactly if that target's own extension survives the way.
   */
  lemma EveryReferenceLeadsBack(q: Request, text: string, resolve: Resolver)
    requires Granted(q) && Rewrite(text, resolve, Encoding(q)).Some?
    requires forall i :: 0 <= i < |Read(text)| ==> GoodRefs(LineRefs(Read(text)[i]), resolve)
    ensures var before, after := Read(text), Read(Rewrite(text, resolve, Encoding(q)).value);
            && |after| == |before|
            && forall i :: 0 <= i < |before| ==>
                 ReplaceLine(before[i], resolve, Encoding(q)) == Some(after[i])
                 && AllLead(q, LineRefs(after[i]), LineRefs(before[i]), resolve)
  {
    TextIsClean(q, text, resolve);
    RewritePreservesStructure(text, resolve, Encoding(q));
    var before, after := Read(text), Read(Rewrite(text, resolve, Encoding(q)).value);
    forall i | 0 <= i < |before| ensures AllLead(q, LineRefs(after[i]), LineRefs(before[i]), resolve) {
      LineLeads(q, before[i], resolve);
    }
  }

  /** An accepted public path without a newline can be granted: publicly, ... */
  lemma PublicGrant(q: Request)
    requires Lawful(q.codec) && Accepted(q.prefix) && '\n' !in q.prefix
    requires q.prefix in q.store && q.store[q.prefix] == q.ap && !q.ap.isPrivate && q.token == ""
    requires q.check(q.ap, q.token) == Admit
    ensures Granted(q)
  {
    AcceptedIsProper(q.prefix);
    AcceptedChars(q.prefix);
  }

  /** ... or privately with a token, unless a public path shadows path and token. */
  lemma PrivateGrant(q: Request, path: string)
    requires Lawful(q.codec) && Accepted(path) && '\n' !in path && GoodToken(q.token) && Unbroken(q.token)
    requires path in q.store && q.store[path] == q.ap && q.ap.isPrivate && q.prefix == path + "/" + q.token
    requires q.check(q.ap, q.token) == Admit
    ensures Granted(q) <==> !(q.prefix in q.store && !q.store[q.prefix].isPrivate)
  {
    AcceptedWithTokenIsProper(path, q.token);
    AcceptedChars(path);
    PrivatePrefixResolves(q.store, path, q.token);
  }
}
