/**
 * The "Featured Success Stories" carousel of the home page. One state field,
 * the index of the project on display, moved by the previous/next buttons
 * and by the dot row.
 */
module ProjectsSection {
  import opened Seqs
  import CarouselIndex

  /** The fields of a featured project that the carousel reads. */
  datatype Project = Project(id: nat, title: string, category: string, client: string)

  /** The `featuredProjects` records, restricted to the fields above. */
  const FeaturedProjects: seq<Project> := [
    Project(1, "E-Commerce Platform", "Web Development", "RetailCorp"),
    Project(2, "FinTech Mobile App", "Mobile Development", "SecureBank"),
    Project(3, "IoT Dashboard", "IoT & Analytics", "SmartCity Inc"),
    Project(4, "AI-Powered CRM", "AI & Automation", "SalesForce Pro")
  ]

  class ProjectCarousel {
    const projects: seq<Project>
    var currentProject: nat

    ghost predicate Valid()
      reads this
    {
      |projects| > 0 && currentProject < |projects|
    }

    /** The component mounts showing the first project. */
    constructor (projects: seq<Project>)
      requires |projects| > 0
      ensures Valid()
      ensures this.projects == projects && currentProject == 0
    {
      this.projects := projects;
      currentProject := 0;
    }

    /** `nextProject`. */
    method NextProject()
      requires Valid()
      modifies this
      ensures Valid()
      ensures currentProject == CarouselIndex.Next(old(currentProject), |projects|)
    {
      currentProject := (currentProject + 1) % |projects|;
    }

    /** `prevProject`. */
    method PrevProject()
      requires Valid()
      modifies this
      ensures Valid()
      ensures currentProject == CarouselIndex.Prev(old(currentProject), |projects|)
    {
      currentProject := (currentProject - 1 + |projects|) % |projects|;
    }

    /** A click on dot `index`; dots exist only for the indices of `projects`. */
    method SelectDot(index: nat)
      requires Valid() && index < |projects|
      modifies this
      ensures Valid()
      ensures currentProject == index
    {
      currentProject := index;
    }

    /** `featuredProjects[currentProject]`: always a read inside the list. */
    function Displayed(): (p: Project)
      reads this
      requires Valid()
      ensures p in projects
    {
      projects[currentProject]
    }

    /** The highlighted state of each dot in the row. */
    function Dots(): (r: seq<bool>)
      reads this
      requires Valid()
      ensures |r| == |projects|
      ensures CountTrue(r) == 1 && r[currentProject]
    {
      CarouselIndex.ExactlyOneDotActive(|projects|, currentProject);
      CarouselIndex.DotStates(|projects|, currentProject)
    }
  }
}
