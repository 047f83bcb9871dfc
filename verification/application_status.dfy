/**
  The application tracking page (`pages/ApplicationStatus.tsx`): the
  applications list narrowed by a search over scheme name and application
  number, the badge colour and label derived from the status, and the
  certificate download offered for approved applications.
 */
module ApplicationStatus {
  import opened Optional
  import opened Text
  import opened Lists

  /** An application as listed; `status` is one of "pending", "under-review",
      "approved", "rejected", "completed" in the data, but the colour lookup
      also handles any other text. Dates are opaque text. */
  datatype Application = Application(
    id: string,
    schemeName: string,
    applicationNumber: string,
    submittedDate: string,
    status: string,
    progress: nat,
    lastUpdate: string,
    estimatedCompletion: string,
    amount: Option<string>)

  const Applications: seq<Application> := [
    Application("1", "PM-KISAN Samman Nidhi", "PMK2024001234", "2024-01-15", "approved", 100,
      "2024-01-20", "Completed", Some("\U{20B9}6,000")),
    Application("2", "Pradhan Mantri Fasal Bima Yojana", "PMFBY2024005678", "2024-01-10", "under-review", 65,
      "2024-01-18", "2024-01-25", None),
    Application("3", "PM Kisan Credit Card", "KCC2024009876", "2024-01-05", "pending", 25,
      "2024-01-16", "2024-01-30", None)
  ]

  /** The badge colour families of `getStatusColor`. */
  datatype StatusColor = Green | Blue | Yellow | Red | Gray

  /** `getStatusColor`: a finished application is green, one in review blue,
      a pending one yellow, a rejected one red and anything else gray. */
  function ColorOf(status: string): (c: StatusColor)
    ensures c == Green <==> status == "approved" || status == "completed"
    ensures c == Blue <==> status == "under-review"
    ensures c == Yellow <==> status == "pending"
    ensures c == Red <==> status == "rejected"
  {
    match status
    case "approved" => Green
    case "completed" => Green
    case "under-review" => Blue
    case "pending" => Yellow
    case "rejected" => Red
    case _ => Gray
  }

  /** The statuses the application type declares. */
  predicate IsKnownStatus(status: string)
  {
    status in {"pending", "under-review", "approved", "rejected", "completed"}
  }

  /** Exactly the undeclared statuses fall through to gray. */
  lemma GrayIffUnknown(status: string)
    ensures ColorOf(status) == Gray <==> !IsKnownStatus(status)
  {
  }

  /** The certificate download button is rendered for "approved" only. */
  predicate OffersCertificate(a: Application)
  {
    a.status == "approved"
  }

  /** "completed" shares the green badge with "approved" but gets no
      certificate button: the colour does not decide the button. */
  lemma CompletedGreenWithoutCertificate(a: Application)
    requires a.status == "completed"
    ensures ColorOf(a.status) == ColorOf("approved") && !OffersCertificate(a)
  {
  }

  /** Every application offered a certificate has a green badge. */
  lemma CertificateImpliesGreen(a: Application)
    ensures OffersCertificate(a) ==> ColorOf(a.status) == Green
  {
  }

  /** The badge text `status.replace("-", " ")` (shown capitalised by CSS). */
  function StatusLabel(status: string): (shown: string)
    ensures |shown| == |status|
  {
    ReplaceFirst(status, '-', ' ')
  }

  /** The label differs from the status only at its first dash, which becomes
      a space, and keeps every later dash. */
  lemma StatusLabelFirstDashOnly(status: string)
    ensures '-' !in status ==> StatusLabel(status) == status
    ensures '-' in status ==>
      (StatusLabel(status)[IndexOf(status, '-')] == ' '
       && multiset(StatusLabel(status))['-'] == multiset(status)['-'] - 1)
    ensures forall i :: 0 <= i < |status| && i != IndexOf(status, '-') ==> StatusLabel(status)[i] == status[i]
  {
    ReplaceFirstPositions(status, '-', ' ');
    ReplaceFirstCount(status, '-', ' ');
  }

  /** The only multi-word status of the data reads "under review". */
  lemma UnderReviewLabel()
    ensures StatusLabel("under-review") == "under review"
  {
    ReplaceFirstAt("under", '-', ' ', "review");
    assert "under" + ['-'] + "review" == "under-review";
    assert "under" + [' '] + "review" == "under review";
  }

  /** The query occurs, ignoring case, in the scheme name or the application number. */
  predicate MatchesQuery(a: Application, query: string)
  {
    Includes(Lower(a.schemeName), Lower(query)) || Includes(Lower(a.applicationNumber), Lower(query))
  }

  /** `filteredApplications`, in list order. */
  function FilterApplications(apps: seq<Application>, query: string): (r: seq<Application>)
    ensures |r| <= |apps|
    ensures forall a :: a in r <==> a in apps && MatchesQuery(a, query)
    ensures forall a :: multiset(r)[a] == if MatchesQuery(a, query) then multiset(apps)[a] else 0
  {
    FilterMultiset(apps, (a: Application) => MatchesQuery(a, query));
    Filter(apps, (a: Application) => MatchesQuery(a, query))
  }

  /** The narrowed list is a subsequence of the list. */
  lemma FilterKeepsOrder(apps: seq<Application>, query: string)
    ensures IsSubsequence(FilterApplications(apps, query), apps)
  {
    FilterIsSubsequence(apps, (a: Application) => MatchesQuery(a, query));
  }

  /** An empty search shows every application, in order. */
  lemma EmptyQueryKeepsAll(apps: seq<Application>)
    ensures FilterApplications(apps, "") == apps
  {
    forall i | 0 <= i < |apps|
      ensures MatchesQuery(apps[i], "")
    {
      IncludesEmpty(Lower(apps[i].schemeName));
    }
    FilterKeepsAll(apps, (a: Application) => MatchesQuery(a, ""));
  }

  /** Searching the narrowed list again changes nothing. */
  lemma FilterApplicationsIdempotent(apps: seq<Application>, query: string)
    ensures FilterApplications(FilterApplications(apps, query), query) == FilterApplications(apps, query)
  {
    FilterIdempotent(apps, (a: Application) => MatchesQuery(a, query));
  }
}
