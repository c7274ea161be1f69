/**
 The names of services and categories, joined after a resource, tell the reasons of one
 tenant apart.
 */
module ReasonNames {
  import opened Wrappers
  import opened DataPaths
  import opened BackupBases
  import opened BaseSearch

  /** The service and category of the reason are named as the source names them, and go together. */
  ghost predicate RealKind(r: Reason, s: ServiceType, c: CategoryType) {
    ValidServiceAndCategory(s, c) && r.service == s.Name() && r.category == c.Name()
  }

  ghost predicate RealReason(tenant: string, r: Reason) {
    r.tenant == tenant && exists s, c :: RealKind(r, s, c)
  }

  /** The services and their categories, by name. */
  const KINDS := {
    ("exchange", "email"), ("exchange", "contacts"), ("exchange", "events"),
    ("onedrive", "files"),
    ("sharepoint", "libraries"), ("sharepoint", "lists"), ("sharepoint", "pages"),
    ("groups", "channelMessages"), ("groups", "conversationPosts"), ("groups", "libraries"),
    ("chats", "chats")}

  lemma KindIsNamed(s: ServiceType, c: CategoryType)
    requires ValidServiceAndCategory(s, c)
    ensures (s.Name(), c.Name()) in KINDS
  {
  }

  /** Exactly these go together. */
  lemma RealKindsAre(r: Reason)
    ensures (exists s, c :: RealKind(r, s, c)) <==> (r.service, r.category) in KINDS
  {
    if s, c :| RealKind(r, s, c) {
      KindIsNamed(s, c);
    }
    if (r.service, r.category) in KINDS {
      KindIsReal(r);
    }
  }

  lemma KindIsReal(r: Reason)
    requires (r.service, r.category) in KINDS
    ensures exists s, c :: RealKind(r, s, c)
  {
    if r.service == "exchange" {
      assert RealKind(r, ExchangeService, if r.category == "email" then EmailCategory
                                          else if r.category == "contacts" then ContactsCategory else EventsCategory);
    } else if r.service == "onedrive" {
      assert RealKind(r, OneDriveService, FilesCategory);
    } else if r.service == "sharepoint" {
      assert RealKind(r, SharePointService, if r.category == "libraries" then LibrariesCategory
                                            else if r.category == "lists" then ListsCategory else PagesCategory);
    } else if r.service == "groups" {
      assert RealKind(r, GroupsService, if r.category == "channelMessages" then ChannelMessagesCategory
                                        else if r.category == "conversationPosts" then ConversationPostsCategory
                                        else LibrariesCategory);
    } else {
      assert RealKind(r, TeamsChatsService, ChatsCategory);
    }
  }

  /** What is written after the resource. */
  function KindText(s: ServiceType, c: CategoryType): (t: string)
    requires ValidServiceAndCategory(s, c)
    ensures |t| >= 10
  {
    s.Name() + c.Name()
  }

  /** The fifth character from the end, and the tenth, identify service and category. */
  function Mark(s: ServiceType, c: CategoryType): (char, char)
    requires ValidServiceAndCategory(s, c)
  {
    var t := KindText(s, c);
    (t[|t| - 5], t[|t| - 10])
  }

  lemma MarkOf(s: ServiceType, c: CategoryType)
    requires ValidServiceAndCategory(s, c)
    ensures Mark(s, c).0 ==
      match c
      case EmailCategory => 'e'
      case ContactsCategory => 't'
      case EventsCategory => 'v'
      case FilesCategory => 'f'
      case LibrariesCategory => 'a'
      case ListsCategory => 'l'
      case PagesCategory => 'p'
      case ChannelMessagesCategory => 's'
      case ConversationPostsCategory => 'P'
      case _ => 'c'
    ensures c.LibrariesCategory? ==> Mark(s, c).1 == if s.SharePointService? then 't' else 's'
  {
  }

  lemma MarksDiffer(s: ServiceType, c: CategoryType, s': ServiceType, c': CategoryType)
    requires ValidServiceAndCategory(s, c) && ValidServiceAndCategory(s', c') && Mark(s, c) == Mark(s', c')
    ensures s == s' && c == c'
  {
    MarkOf(s, c);
    MarkOf(s', c');
  }

  lemma EndsAlike(a: string, t: string, b: string, t': string)
    requires a + t == b + t' && |t| >= 10 && |t'| >= 10
    ensures t[|t| - 5] == t'[|t'| - 5] && t[|t| - 10] == t'[|t'| - 10]
  {
    var w := a + t;
    assert w[|w| - 5] == t[|t| - 5] && w[|w| - 10] == t[|t| - 10];
    var w' := b + t';
    assert w'[|w'| - 5] == t'[|t'| - 5] && w'[|w'| - 10] == t'[|t'| - 10];
  }

  lemma SameKind(a: string, s: ServiceType, c: CategoryType, b: string, s': ServiceType, c': CategoryType)
    requires ValidServiceAndCategory(s, c) && ValidServiceAndCategory(s', c')
    requires a + KindText(s, c) == b + KindText(s', c')
    ensures s == s' && c == c'
  {
    EndsAlike(a, KindText(s, c), b, KindText(s', c'));
    MarksDiffer(s, c, s', c');
  }

  lemma SameFront(a: string, b: string, t: string)
    requires a + t == b + t
    ensures a == b
  {
    assert (a + t)[..|a|] == a && (b + t)[..|b|] == b;
  }

  /** Two reasons of one tenant that read alike when joined are one reason, whatever the resources are called. */
  lemma RealReasonsApart(tenant: string, q: Reason, r: Reason)
    requires RealReason(tenant, q) && RealReason(tenant, r)
    ensures Apart(q, r)
  {
    var s, c :| RealKind(q, s, c);
    var s', c' :| RealKind(r, s', c');
    TextOf(q, s, c);
    TextOf(r, s', c');
    if q.resource + KindText(s, c) == r.resource + KindText(s', c') {
      SameKind(q.resource, s, c, r.resource, s', c');
      SameFront(q.resource, r.resource, KindText(s, c));
    }
  }

  lemma TextOf(r: Reason, s: ServiceType, c: CategoryType)
    requires RealKind(r, s, c)
    ensures r.service + r.category == KindText(s, c)
  {
  }

  /** Whatever the names, reasons of one resource and service with different categories read differently. */
  lemma CategoriesTellApart(q: Reason, r: Reason)
    requires q.tenant == r.tenant && q.resource == r.resource && q.service == r.service
    ensures Apart(q, r)
  {
    if q.resource + (q.service + q.category) == r.resource + (r.service + r.category) {
      var front := q.resource + q.service;
      assert (front + q.category)[|front|..] == q.category;
      assert (front + r.category)[|front|..] == r.category;
      assert q.resource + (q.service + q.category) == front + q.category;
      assert r.resource + (r.service + r.category) == front + r.category;
    }
  }

  /** So the search answers every reason of a backup, each with one base. */
  lemma RealReasonsAnswered(tenant: string, reasons: set<Reason>)
    requires forall r :: r in reasons ==> RealReason(tenant, r)
    ensures ReasonsApart(reasons)
  {
    forall q, r | q in reasons && r in reasons
      ensures Apart(q, r)
    {
      RealReasonsApart(tenant, q, r);
    }
  }
}
