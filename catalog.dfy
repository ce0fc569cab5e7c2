/**
 * The static project catalog behind the modal, and the markup the modal body
 * receives for one entry.
 */
module Catalog {
  import opened Render

  /** One catalog entry. The image markup and the description are opaque text here. */
  datatype Project = Project(
    title: string,
    image: string,
    description: string,
    features: seq<string>,
    technologies: seq<string>)

  const BankDashboard := Project(
    "Bank Dashboard",
    "<svg>bank dashboard illustration</svg>",
    "A comprehensive banking dashboard application.",
    ["Real-time account balance tracking",
     "Detailed transaction history with search and filters",
     "Interactive charts for spending analytics",
     "Secure fund transfer functionality",
     "Bill payment system integration",
     "Budget planning and management tools",
     "Responsive design for mobile and desktop",
     "Dark mode support for better user experience"],
    ["HTML5", "CSS3", "JavaScript", "Chart.js", "Local Storage API"])

  const ShoppingDashboard := Project(
    "Shopping Site Dashboard",
    "<svg>shopping dashboard illustration</svg>",
    "A powerful e-commerce admin dashboard.",
    ["Product catalog management with categories",
     "Real-time order tracking and processing",
     "Customer database and profile management",
     "Sales analytics with visual charts and reports",
     "Inventory management and stock alerts",
     "Revenue tracking and financial reports",
     "User-friendly interface with drag-and-drop features",
     "Export data functionality for reports"],
    ["HTML5", "CSS3", "JavaScript", "Chart.js", "Local Storage API"])

  /**
   * The catalog, keyed as a JavaScript object literal keys it: the numeric
   * keys 1 and 2 become the property names "1" and "2".
   */
  function Projects(): (m: map<string, Project>)
    ensures m.Keys == {"1", "2"}
    ensures "999" !in m
    ensures m["1"].title == "Bank Dashboard" && m["2"].title == "Shopping Site Dashboard"
    ensures forall id | id in m :: |m[id].features| == 8 && |m[id].technologies| == 5
  {
    map["1" := BankDashboard, "2" := ShoppingDashboard]
  }

  /** The title heading of the modal body. */
  function TitleHtml(p: Project): string
  {
    "<h2 class=\"modal-project-title\">" + p.title + "</h2>"
  }

  /** The features list of the modal body. */
  function FeatureListHtml(p: Project): string
  {
    "<ul>" + FeaturesHtml(p.features) + "</ul>"
  }

  /** The tags container of the modal body. */
  function TagListHtml(p: Project): string
  {
    "<div class=\"project-tags\" style=\"margin-top: 1rem;\">" + TagsHtml(p.technologies) + "</div>"
  }

  /** The line break and indentation that open the template. */
  const LeadHtml := "\n        "

  /** The markup between the title heading and the features list. */
  function IntroHtml(p: Project): string
  {
    "\n        <div class=\"modal-project-image\">" + p.image + "</div>"
    + "\n        <p class=\"modal-project-description\">" + p.description + "</p>"
    + "\n        \n        <div class=\"modal-project-features\">"
    + "\n            <h3>Key Features</h3>"
    + "\n            "
  }

  /** The markup between the features list and the tags container. */
  const MiddleHtml := "\n        </div>"
    + "\n        \n        <div class=\"modal-project-features\">"
    + "\n            <h3>Technologies Used</h3>"
    + "\n            "

  /** The markup after the tags container. */
  const TailHtml := "\n        </div>\n    "

  /**
   * The whole modal body, whitespace of the template literal included. It
   * shows the entry's title heading, its features as an ordered `<li>` list
   * and its technologies as an ordered tag list.
   */
  function ModalHtml(p: Project): (r: string)
    ensures Occurs(TitleHtml(p), r)
    ensures Occurs(FeatureListHtml(p), r)
    ensures Occurs(TagListHtml(p), r)
  {
    OccursPieces(LeadHtml, TitleHtml(p), IntroHtml(p), FeatureListHtml(p), MiddleHtml, TagListHtml(p), TailHtml);
    LeadHtml + TitleHtml(p) + IntroHtml(p) + FeatureListHtml(p) + MiddleHtml + TagListHtml(p) + TailHtml
  }

  /** t stands in s at position i. */
  predicate At(t: string, s: string, i: int)
  {
    0 <= i <= |s| - |t| && s[i..i + |t|] == t
  }

  /** t occurs in s as a contiguous piece. */
  ghost predicate Occurs(t: string, s: string)
  {
    exists i :: At(t, s, i)
  }

  lemma OccursIn(pre: string, t: string, post: string)
    ensures Occurs(t, pre + t + post)
  {
    var s := pre + t + post;
    assert s[|pre|..|pre| + |t|] == t;
    assert At(t, s, |pre|);
  }

  /** Each of three pieces, kept apart by filler, occurs in the whole. */
  lemma OccursPieces(a: string, t: string, b: string, f: string, c: string, g: string, d: string)
    ensures Occurs(t, a + t + b + f + c + g + d)
    ensures Occurs(f, a + t + b + f + c + g + d)
    ensures Occurs(g, a + t + b + f + c + g + d)
  {
    var s := a + t + b + f + c + g + d;
    OccursIn(a, t, b + f + c + g + d);
    assert s == a + t + (b + f + c + g + d);
    OccursIn(a + t + b, f, c + g + d);
    assert s == (a + t + b) + f + (c + g + d);
    OccursIn(a + t + b + f + c, g, d);
  }
}
