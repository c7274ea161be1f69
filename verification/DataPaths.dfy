/**
 Typed paths of src/pkg/path: `<tenant>/<service>/<resource>/<category>/...`, their
 constructors, and the parser that reads them back from their printed form.
 */
module DataPaths {
  import opened Wrappers
  import opened PathEscaping
  import PathLoops

  datatype ServiceType =
    | ExchangeService
    | OneDriveService
    | SharePointService
    | GroupsService
    | TeamsChatsService
    | MetadataService
    | UnknownService
  {
    function Name(): string
      requires IsResource()
    {
      match this
      case ExchangeService => "exchange"
      case OneDriveService => "onedrive"
      case SharePointService => "sharepoint"
      case GroupsService => "groups"
      case _ => "chats"
    }

    predicate IsResource() {
      !MetadataService? && !UnknownService?
    }
  }

  datatype CategoryType =
    | EmailCategory
    | ContactsCategory
    | EventsCategory
    | FilesCategory
    | ListsCategory
    | LibrariesCategory
    | PagesCategory
    | DetailsCategory
    | ChannelMessagesCategory
    | ConversationPostsCategory
    | ChatsCategory
    | UnknownCategory
  {
    function Name(): string {
      match this
      case EmailCategory => "email"
      case ContactsCategory => "contacts"
      case EventsCategory => "events"
      case FilesCategory => "files"
      case ListsCategory => "lists"
      case LibrariesCategory => "libraries"
      case PagesCategory => "pages"
      case DetailsCategory => "details"
      case ChannelMessagesCategory => "channelMessages"
      case ConversationPostsCategory => "conversationPosts"
      case ChatsCategory => "chats"
      case UnknownCategory => "UnknownCategory"
    }
  }

  datatype DataPathError =
    | LogicallyEmpty
    | Malformed(escape: PathError)
    | TooFewElements
    | BadServiceCategory
    | MissingSegment
    | AlreadyAnItem
    | CannotShorten

  /** Every service/category pair of `serviceCategories`. */
  predicate ValidServiceAndCategory(s: ServiceType, c: CategoryType) {
    match s
    case ExchangeService => c.EmailCategory? || c.ContactsCategory? || c.EventsCategory?
    case OneDriveService => c.FilesCategory?
    case SharePointService => c.LibrariesCategory? || c.ListsCategory? || c.PagesCategory?
    case GroupsService => c.ChannelMessagesCategory? || c.ConversationPostsCategory? || c.LibrariesCategory?
    case TeamsChatsService => c.ChatsCategory?
    case _ => false
  }

  function LowerChar(c: char): char {
    if 'A' <= c <= 'Z' then c - 'A' + 'a' else c
  }

  function Lower(s: string): string {
    seq(|s|, i requires 0 <= i < |s| => LowerChar(s[i]))
  }

  function ToServiceType(s: string): ServiceType {
    var l := Lower(s);
    if l == "exchange" then ExchangeService
    else if l == "onedrive" then OneDriveService
    else if l == "sharepoint" then SharePointService
    else if l == "groups" then GroupsService
    else if l == "chats" then TeamsChatsService
    else if l in ["exchangemetadata", "onedrivemetadata", "sharepointmetadata",
                  "groupsmetadata", "chatsmetadata"] then MetadataService
    else UnknownService
  }

  function ToCategoryType(s: string): CategoryType {
    var l := Lower(s);
    if l == "email" then EmailCategory
    else if l == "contacts" then ContactsCategory
    else if l == "events" then EventsCategory
    else if l == "files" then FilesCategory
    else if l == "lists" then ListsCategory
    else if l == "libraries" then LibrariesCategory
    else if l == "pages" then PagesCategory
    else if l == "details" then DetailsCategory
    else if l == "channelmessages" then ChannelMessagesCategory
    else if l == "conversationposts" then ConversationPostsCategory
    else if l == "chats" then ChatsCategory
    else UnknownCategory
  }

  /** Capital letters become small ones; everything else stays. */
  lemma LowerLetters(c: char)
    ensures Lower("ABCDEFGHIJKLMNOPQRSTUVWXYZ") == "abcdefghijklmnopqrstuvwxyz"
    ensures Lower([c]) == [c] || c in "ABCDEFGHIJKLMNOPQRSTUVWXYZ"
  {
    var capitals := "ABCDEFGHIJKLMNOPQRSTUVWXYZ";
    if 'A' <= c <= 'Z' {
      assert capitals[(c - 'A') as int] == c;
    }
  }

  lemma LowerFixed(s: string)
    requires forall i :: 0 <= i < |s| ==> LowerChar(s[i]) == s[i]
    ensures Lower(s) == s
  {
  }

  lemma ServiceNameRoundTrip(s: ServiceType)
    requires s.IsResource()
    ensures ToServiceType(s.Name()) == s
  {
    LowerFixed(s.Name());
  }

  lemma SameService(x: string, y: string)
    requires ToServiceType(x) == ToServiceType(y) && ToServiceType(x).IsResource()
    ensures Lower(x) == Lower(y)
  {
  }

  lemma SameCategory(x: string, y: string)
    requires ToCategoryType(x) == ToCategoryType(y) && !ToCategoryType(x).UnknownCategory?
    ensures Lower(x) == Lower(y)
  {
  }

  /** Services and categories are read without regard to case. */
  lemma ServiceOf(x: string, s: ServiceType)
    requires s.IsResource()
    ensures ToServiceType(x) == s <==> Lower(x) == Lower(s.Name())
  {
    ServiceNameRoundTrip(s);
    if ToServiceType(x) == s {
      SameService(x, s.Name());
    }
  }

  lemma CategoryOf(x: string, c: CategoryType)
    requires !c.UnknownCategory?
    ensures ToCategoryType(x) == c <==> Lower(x) == Lower(c.Name())
  {
    CategoryNameRoundTrip(c);
    if ToCategoryType(x) == c {
      SameCategory(x, c.Name());
    }
  }

  lemma CategoryNameRoundTrip(c: CategoryType)
    requires !c.UnknownCategory?
    ensures ToCategoryType(c.Name()) == c
  {
    if c.ChannelMessagesCategory? {
      assert Lower("channelMessages") == "channelmessages";
    } else if c.ConversationPostsCategory? {
      assert Lower("conversationPosts") == "conversationposts";
    } else {
      LowerFixed(c.Name());
    }
  }

  datatype DataPath = DataPath(elements: Elements, service: ServiceType, category: CategoryType, hasItem: bool) {
    /** What every constructor of the source guarantees. */
    ghost predicate Valid(minElements: nat) {
      && |elements| >= minElements >= 4
      && AllNonEmpty(elements)
      && ValidServiceAndCategory(service, category)
      && ToServiceType(elements[1]) == service
      && ToCategoryType(elements[3]) == category
    }

    function Folders(): Elements
      requires |elements| >= 5
    {
      elements[4..if hasItem then |elements| - 1 else |elements|]
    }

    function Item(): string
      requires |elements| >= 5
    {
      if hasItem then elements[|elements| - 1] else ""
    }

    function Dir(): Result<DataPath, DataPathError> {
      if |elements| <= 4 then Err(CannotShorten)
      else Ok(DataPath(elements[..|elements| - 1], service, category, false))
    }

    function Append(isItem: bool, elems: seq<string>): Result<DataPath, DataPathError> {
      if hasItem then Err(AlreadyAnItem)
      else Ok(DataPath(elements + PathLoops.NonEmptyOnly(elems), service, category, isItem))
    }
  }

  /** `BuildOrPrefix`. */
  function BuildOrPrefix(tenant: string, resource: string, s: ServiceType, c: CategoryType,
                         isItem: bool, elems: seq<string>): (r: Result<DataPath, DataPathError>)
    ensures r.Ok? <==> ValidServiceAndCategory(s, c) && tenant != "" && resource != ""
  {
    if !ValidServiceAndCategory(s, c) then Err(BadServiceCategory)
    else if tenant == "" || resource == "" then Err(MissingSegment)
    else Ok(DataPath(PathLoops.NonEmptyOnly([tenant, s.Name(), resource, c.Name()] + elems), s, c, isItem))
  }

  /** `pathFromDataLayerPath`. */
  function FromDataLayer(p: string, isItem: bool, minElements: nat): Result<DataPath, DataPathError>
    requires minElements >= 4
  {
    var t := Trim(p);
    if t == "" then Err(LogicallyEmpty)
    else
      match UnescapeAll(SplitPath(t))
      case Err(e) => Err(Malformed(e))
      case Ok(es) =>
        if |es| < minElements then Err(TooFewElements)
        else
          var s, c := ToServiceType(es[1]), ToCategoryType(es[3]);
          if !ValidServiceAndCategory(s, c) then Err(BadServiceCategory)
          else if es[0] == "" || es[2] == "" then Err(MissingSegment)
          else Ok(DataPath(es, s, c, isItem))
  }

  /** Constructors build valid paths, with the given elements behind the prefix. */
  lemma BuildIsValid(tenant: string, resource: string, s: ServiceType, c: CategoryType, isItem: bool,
                     elems: seq<string>)
    ensures var r := BuildOrPrefix(tenant, resource, s, c, isItem, elems);
      r.Ok? ==>
        && r.value.Valid(4)
        && r.value.elements == [tenant, s.Name(), resource, c.Name()] + PathLoops.NonEmptyOnly(elems)
  {
    var r := BuildOrPrefix(tenant, resource, s, c, isItem, elems);
    if r.Ok? {
      assert s.Name() != "" && c.Name() != "";
      PrefixIsKept([tenant, s.Name(), resource, c.Name()], elems);
      ServiceNameRoundTrip(s);
      CategoryNameRoundTrip(c);
    }
  }

  lemma {:induction false} PrefixIsKept(prefix: seq<string>, es: seq<string>)
    requires AllNonEmpty(prefix)
    ensures PathLoops.NonEmptyOnly(prefix + es) == prefix + PathLoops.NonEmptyOnly(es)
  {
    if prefix == [] {
      assert prefix + es == es;
    } else {
      PrefixIsKept(prefix[1..], es);
      assert (prefix + es)[1..] == prefix[1..] + es;
    }
  }

  /** A valid typed path is read back from its printed form. */
  lemma DataPathRoundTrip(p: DataPath, minElements: nat)
    requires p.Valid(minElements)
    ensures FromDataLayer(Print(p.elements), p.hasItem, minElements) == Ok(p)
  {
    ParsePrint(p.elements);
    PrintedNeverEndsInSeparator("", p.elements);
    assert "" + Print(p.elements) == Print(p.elements);
    assert Print(p.elements) != "" by {
      EscapeNonEmpty(p.elements[0]);
    }
  }

  /** Everything that parses is a valid typed path, and reparsing its print changes nothing. */
  lemma ParsedIsValid(s: string, isItem: bool, minElements: nat)
    requires minElements >= 4 && FromDataLayer(s, isItem, minElements).Ok?
    ensures FromDataLayer(s, isItem, minElements).value.Valid(minElements)
    ensures FromDataLayer(Print(FromDataLayer(s, isItem, minElements).value.elements), isItem, minElements)
         == FromDataLayer(s, isItem, minElements)
  {
    UnescapeAllNonEmpty(SplitPath(Trim(s)));
    DataPathRoundTrip(FromDataLayer(s, isItem, minElements).value, minElements);
  }

  /** Appending one element and taking the parent directory are inverse. */
  lemma AppendThenDir(p: DataPath, isItem: bool, elem: string)
    requires p.Valid(4) && !p.hasItem && elem != ""
    ensures p.Append(isItem, [elem]).Ok?
    ensures p.Append(isItem, [elem]).value.Valid(5)
    ensures p.Append(isItem, [elem]).value.Dir() == Ok(p)
    ensures isItem ==>
      var q := p.Append(isItem, [elem]).value;
      q.Item() == elem && q.Folders() == p.elements[4..]
  {
    assert PathLoops.NonEmptyOnly([elem]) == [elem];
    assert (p.elements + [elem])[..|p.elements|] == p.elements;
    assert (p.elements + [elem])[4..|p.elements|] == p.elements[4..];
  }

  /**
   Whether the reparse of a printed path succeeds depends only on its prefix: this is
   the check that `traverseBaseDir` performs on the directories it adds.
   */
  ghost predicate HasResourcePrefix(es: Elements) {
    && |es| >= 4
    && AllNonEmpty(es)
    && ValidServiceAndCategory(ToServiceType(es[1]), ToCategoryType(es[3]))
  }

  lemma ReparseSucceedsIff(es: Elements)
    requires AllNonEmpty(es)
    ensures FromDataLayer(Print(es), false, 4).Ok? <==> HasResourcePrefix(es)
    ensures HasResourcePrefix(es) ==> FromDataLayer(Print(es), false, 4).value.elements == es
  {
    ParsePrint(es);
    if es != [] {
      PrintedNeverEndsInSeparator("", es);
      assert "" + Print(es) == Print(es);
    }
  }
}
