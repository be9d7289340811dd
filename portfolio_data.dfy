/** The records the projects page works on. Their fields are the ones the page
    reads: the filter (title, description, tags, skills), the category header
    (id, name, description) and the project card (id, award flag, links). */
module PortfolioData {

  datatype Option<T> = None | Some(value: T)

  /** One portfolio project. `tags` and `skills` are ordered lists, as in the
      page's data; `githubUrl` and `liveUrl` are optional links. */
  datatype Project = Project(
    id: string,
    title: string,
    description: string,
    tags: seq<string>,
    skills: seq<string>,
    isAward: bool,
    githubUrl: Option<string>,
    liveUrl: Option<string>
  )

  /** A named group of projects, in display order. */
  datatype Category = Category(
    id: string,
    name: string,
    description: string,
    projects: seq<Project>
  )
}
