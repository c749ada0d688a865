/**
 * The projects grid: a constant list of five projects and the category
 * buttons above it. The selected category starts at the sentinel "All";
 * clicking a button replaces it, and the grid shows the list filtered by it.
 */
module ProjectsSection {

  /** One card of the grid. */
  datatype Project = Project(
    id: int,
    title: string,
    description: string,
    image: string,
    techStack: seq<string>,
    category: string,
    liveUrl: string,
    githubUrl: string)

  const Calculator := Project(1, "Calculator",
    "Responsive web-based calculator with modern design",
    "/projects/calculator.png", ["React", "TypeScript", "TailwindCSS"], "Web App",
    "https://calculator-hn3z9kb9w-coderkeshav-yts-projects.vercel.app/", "#")

  const ECommerce := Project(2, "E-commerce Website",
    "Bookstore platform with cart & checkout functionality",
    "/projects/ecommerce.png", ["React", "Node.js", "MongoDB"], "Full Stack",
    "https://coderkeshav-yt.github.io/Bookore/", "#")

  const TaskManager := Project(3, "Task Manager",
    "Productivity tool with a clean and intuitive UI",
    "/projects/task-manager.png", ["React", "Redux", "TailwindCSS"], "Web App",
    "#", "https://github.com/coderkeshav-yt/Task-Manager")

  const Timer := Project(4, "Timer",
    "Web-based customizable timer application",
    "/projects/timer.png", ["React", "TypeScript"], "Web App",
    "https://coderkeshav-yt.github.io/CoutnDown_Boards/", "#")

  const PortfolioSite := Project(5, "Portfolio Website",
    "Fully responsive portfolio with a modern stack",
    "/projects/port.jpg", ["React", "TypeScript", "TailwindCSS", "Framer Motion"], "Web App",
    "https://coderkeshav-yt.github.io/portfolio/", "#")

  /** The `projects` list, in display order. */
  const Projects: seq<Project> := [Calculator, ECommerce, TaskManager, Timer, PortfolioSite]

  /** The sentinel category that shows every project; also the initial selection. */
  const All := "All"

  /** The `categories` buttons, in display order. */
  const Categories: seq<string> := [All, "Web App", "Full Stack"]

  /** The filter's test: the sentinel keeps everything, any other category compares exactly. */
  predicate Shown(p: Project, selected: string): (shown: bool)
    ensures selected == All ==> shown
    ensures selected != All ==> (shown <==> p.category == selected)
  {
    selected == All || p.category == selected
  }

  /** `filteredProjects`: the projects the test keeps, in their original order. */
  function Filter(ps: seq<Project>, selected: string): (r: seq<Project>)
    ensures |r| <= |ps|
    ensures forall i :: 0 <= i < |r| ==> Shown(r[i], selected)
    decreases |ps|
  {
    if ps == [] then []
    else (if Shown(ps[0], selected) then [ps[0]] else []) + Filter(ps[1..], selected)
  }

  function Ids(ps: seq<Project>): seq<int> {
    seq(|ps|, i requires 0 <= i < |ps| => ps[i].id)
  }

  /** One step of the filter, for a list written as its head and tail. */
  lemma {:induction false} FilterCons(p: Project, rest: seq<Project>, selected: string)
    ensures Filter([p] + rest, selected) == (if Shown(p, selected) then [p] else []) + Filter(rest, selected)
  {
    assert ([p] + rest)[1..] == rest;
  }

  /** The sentinel shows the whole list. */
  lemma {:induction false} FilterAll(ps: seq<Project>)
    ensures Filter(ps, All) == ps
    decreases |ps|
  {
    if ps != [] {
      FilterAll(ps[1..]);
      assert ps == [ps[0]] + ps[1..];
    }
  }

  /** A project is shown exactly when it is in the list and passes the test. */
  lemma {:induction false} FilterMembers(ps: seq<Project>, selected: string)
    ensures forall p :: p in Filter(ps, selected) <==> p in ps && Shown(p, selected)
    decreases |ps|
  {
    if ps != [] {
      FilterMembers(ps[1..], selected);
      assert ps == [ps[0]] + ps[1..];
      forall p ensures p in ps <==> p == ps[0] || p in ps[1..] {
        if p in ps {
          var i :| 0 <= i < |ps| && ps[i] == p;
          if i > 0 {
            assert ps[1..][i - 1] == p;
          }
        }
      }
    }
  }

  /** `idx` places each element of `a`, in order, at strictly increasing positions of `b`. */
  predicate IsEmbedding(idx: seq<int>, a: seq<Project>, b: seq<Project>) {
    |idx| == |a|
    && (forall k :: 0 <= k < |idx| ==> 0 <= idx[k] < |b| && a[k] == b[idx[k]])
    && (forall k, l :: 0 <= k < l < |idx| ==> idx[k] < idx[l])
  }

  /** `a` is `b` with some elements left out and the rest kept in order. */
  ghost predicate IsSubsequence(a: seq<Project>, b: seq<Project>) {
    exists idx :: IsEmbedding(idx, a, b)
  }

  /** Every position moved one place to the right. */
  function Shifted(idx: seq<int>): (r: seq<int>)
    ensures |r| == |idx|
    ensures forall k :: 0 <= k < |r| ==> r[k] == idx[k] + 1
  {
    seq(|idx|, k requires 0 <= k < |idx| => idx[k] + 1)
  }

  /** The positions of the shown projects, in increasing order. */
  function ShownPositions(ps: seq<Project>, selected: string): (idx: seq<int>)
    decreases |ps|
  {
    if ps == [] then []
    else
      var moved := Shifted(ShownPositions(ps[1..], selected));
      if Shown(ps[0], selected) then [0] + moved else moved
  }

  /** An embedding into the tail of `b` is, moved one place right, an embedding into `b`. */
  lemma {:induction false} EmbeddingShift(idx: seq<int>, a: seq<Project>, b: seq<Project>)
    requires b != [] && IsEmbedding(idx, a, b[1..])
    ensures IsEmbedding(Shifted(idx), a, b)
    ensures IsEmbedding([0] + Shifted(idx), [b[0]] + a, b)
  {
    var moved := Shifted(idx);
    forall k | 0 <= k < |moved| ensures 1 <= moved[k] < |b| && a[k] == b[moved[k]] {
      assert b[1..][idx[k]] == b[idx[k] + 1];
    }
    var full := [0] + moved;
    var c := [b[0]] + a;
    forall k | 0 <= k < |full| ensures 0 <= full[k] < |b| && c[k] == b[full[k]] {
      if k > 0 {
        assert full[k] == moved[k - 1] && c[k] == a[k - 1];
      }
    }
  }

  /** The filter's positions place the grid's cards, in order, in the list. */
  lemma {:induction false} ShownPositionsEmbed(ps: seq<Project>, selected: string)
    ensures IsEmbedding(ShownPositions(ps, selected), Filter(ps, selected), ps)
    decreases |ps|
  {
    if ps != [] {
      var tail := ShownPositions(ps[1..], selected);
      ShownPositionsEmbed(ps[1..], selected);
      EmbeddingShift(tail, Filter(ps[1..], selected), ps);
    }
  }

  /** The grid keeps the list's order: the result is a subsequence of the list. */
  lemma {:induction false} FilterIsSubsequence(ps: seq<Project>, selected: string)
    ensures IsSubsequence(Filter(ps, selected), ps)
  {
    ShownPositionsEmbed(ps, selected);
  }

  /** Filtering again by the same category changes nothing. */
  lemma {:induction false} FilterIdempotent(ps: seq<Project>, selected: string)
    ensures Filter(Filter(ps, selected), selected) == Filter(ps, selected)
    decreases |ps|
  {
    if ps != [] {
      FilterIdempotent(ps[1..], selected);
      var rest := Filter(ps[1..], selected);
      if Shown(ps[0], selected) {
        assert Filter(ps, selected) == [ps[0]] + rest;
        FilterCons(ps[0], rest, selected);
      } else {
        assert Filter(ps, selected) == rest;
      }
    }
  }

  /** A category that no project carries, other than the sentinel, shows nothing. */
  lemma {:induction false} FilterMissingCategory(ps: seq<Project>, selected: string)
    requires selected != All
    requires forall i :: 0 <= i < |ps| ==> ps[i].category != selected
    ensures Filter(ps, selected) == []
    decreases |ps|
  {
    if ps != [] {
      FilterMissingCategory(ps[1..], selected);
    }
  }

  /**
   * When every project carries one of two distinct categories, other than the
   * sentinel, the two filtered lists split the list between them.
   */
  lemma {:induction false} FilterPartition(ps: seq<Project>, a: string, b: string)
    requires a != All && b != All && a != b
    requires forall i :: 0 <= i < |ps| ==> ps[i].category == a || ps[i].category == b
    ensures multiset(Filter(ps, a)) + multiset(Filter(ps, b)) == multiset(ps)
    ensures |Filter(ps, a)| + |Filter(ps, b)| == |ps|
    decreases |ps|
  {
    if ps != [] {
      FilterPartition(ps[1..], a, b);
      assert ps == [ps[0]] + ps[1..];
      assert multiset(ps) == multiset([ps[0]]) + multiset(ps[1..]);
    }
  }

  /** The seed ids are 1 to 5, in order, so no two cards share a key. */
  lemma SeedIds()
    ensures Ids(Projects) == [1, 2, 3, 4, 5]
    ensures forall i, j :: 0 <= i < j < |Projects| ==> Projects[i].id != Projects[j].id
  {
  }

  /** Every project's category is one of the buttons other than the sentinel. */
  lemma SeedCategories()
    ensures forall i :: 0 <= i < |Projects| ==> Projects[i].category in Categories[1..]
    ensures forall i :: 0 <= i < |Projects| ==> Projects[i].category == "Web App" || Projects[i].category == "Full Stack"
  {
  }

  /** Filtering a concatenation filters each part. */
  lemma {:induction false} FilterConcat(a: seq<Project>, b: seq<Project>, selected: string)
    ensures Filter(a + b, selected) == Filter(a, selected) + Filter(b, selected)
    decreases |a|
  {
    if a != [] {
      FilterConcat(a[1..], b, selected);
      assert (a + b)[1..] == a[1..] + b;
    } else {
      assert a + b == b;
    }
  }

  /** The filter over a five-element list, one element at a time. */
  lemma {:induction false} FilterFive(a: Project, b: Project, c: Project, d: Project, e: Project, selected: string)
    ensures Filter([a, b, c, d, e], selected) ==
      Filter([a], selected) + (Filter([b], selected) + (Filter([c], selected) + (Filter([d], selected) + Filter([e], selected))))
  {
    assert [a, b, c, d, e] == [a] + ([b] + ([c] + ([d] + [e])));
    FilterConcat([d], [e], selected);
    FilterConcat([c], [d] + [e], selected);
    FilterConcat([b], [c] + ([d] + [e]), selected);
    FilterConcat([a], [b] + ([c] + ([d] + [e])), selected);
  }

  /** "Full Stack" shows only the e-commerce card. */
  lemma {:induction false} FullStackShowsOne()
    ensures Filter(Projects, "Full Stack") == [ECommerce]
    ensures Ids(Filter(Projects, "Full Stack")) == [2]
  {
    var c := "Full Stack";
    FilterFive(Calculator, ECommerce, TaskManager, Timer, PortfolioSite, c);
    assert Filter([Calculator], c) == [] && Filter([ECommerce], c) == [ECommerce];
    assert Filter([TaskManager], c) == [] && Filter([Timer], c) == [] && Filter([PortfolioSite], c) == [];
  }

  /** "Web App" shows the other four cards, in list order. */
  lemma {:induction false} WebAppShowsFour()
    ensures Filter(Projects, "Web App") == [Calculator, TaskManager, Timer, PortfolioSite]
    ensures Ids(Filter(Projects, "Web App")) == [1, 3, 4, 5]
  {
    var c := "Web App";
    FilterFive(Calculator, ECommerce, TaskManager, Timer, PortfolioSite, c);
    assert Filter([Calculator], c) == [Calculator] && Filter([ECommerce], c) == [];
    assert Filter([TaskManager], c) == [TaskManager] && Filter([Timer], c) == [Timer];
    assert Filter([PortfolioSite], c) == [PortfolioSite];
  }

  /** The comparison is case-sensitive: "web app" shows nothing. */
  lemma {:induction false} LowerCaseShowsNothing()
    ensures Filter(Projects, "web app") == []
  {
    FilterMissingCategory(Projects, "web app");
  }

  /** The two real categories split the seed list: 4 cards and 1 card. */
  lemma {:induction false} SeedPartition()
    ensures multiset(Filter(Projects, "Web App")) + multiset(Filter(Projects, "Full Stack")) == multiset(Projects)
  {
    SeedCategories();
    FilterPartition(Projects, "Web App", "Full Stack");
  }
}
