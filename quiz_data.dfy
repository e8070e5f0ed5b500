/**
 * The built-in catalogue (data/quizzes.ts): a bank of 25 single-choice questions
 * and three quizzes, each built from a contiguous range of the bank.
 */
module QuizData {
  import opened Wrappers
  import opened Strings
  import opened QuizTypes

  function Opt(id: string, text: string, isCorrect: bool): AnswerOption {
    AnswerOption(id, text, isCorrect, None)
  }

  /** A bank entry: a single-choice question without points, time limit, answer or media. */
  function BankQuestion(id: string, prompt: string, explanation: string, options: seq<AnswerOption>): Question {
    Question(id, prompt, Single, options, explanation, None, None, None, None)
  }

  /** `fabricQuestionBank`. */
  const FabricQuestionBank: seq<Question> := [
    BankQuestion(
      "fabric-fundamentals-overview",
      "Which statement best captures Microsoft Fabric's core value proposition for analytics teams?",
      "Microsoft Fabric delivers a unified Software-as-a-Service analytics platform that combines data integration, engineering, warehousing, data science, and business intelligence on top of OneLake.",
      [
        Opt("a", "It is a standalone visualization tool that replaces Power BI Desktop.", false),
        Opt("b", "It unifies data integration, engineering, warehousing, data science, and BI workloads in a single SaaS experience.", true),
        Opt("c", "It is an Azure subscription tier used solely for hosting SQL Server virtual machines.", false),
        Opt("d", "It is an add-on that only enhances Microsoft Purview catalogs.", false)
      ]),
    BankQuestion(
      "fabric-traditional-challenges",
      "A retail enterprise struggles with silos between ETL pipelines, data lakes, and BI dashboards maintained on separate platforms. How does Microsoft Fabric specifically address this pain?",
      "Fabric eliminates cross-platform friction by providing shared governance, storage, and lifecycle management across all workloads so teams can collaborate within one managed environment.",
      [
        Opt("a", "By replacing the need for data lakes entirely and storing everything in embedded Power BI datasets.", false),
        Opt("b", "By offering a unified workspace experience where pipelines, notebooks, warehouses, and reports share governance and storage.", true),
        Opt("c", "By forcing teams to export data to Excel for final analysis.", false),
        Opt("d", "By restricting BI workloads to on-premises gateways only.", false)
      ]),
    BankQuestion(
      "fabric-bi-accelerate",
      "Which Fabric capability most directly empowers business analysts to deliver trusted self-service BI faster?",
      "Fabric couples Power BI with centrally governed, reusable semantic models stored in OneLake, enabling analysts to build dashboards against certified data.",
      [
        Opt("a", "Automatic conversion of PowerPoint slides into dashboards.", false),
        Opt("b", "Shared, certified semantic models in OneLake that Power BI can reuse across reports.", true),
        Opt("c", "Requiring analysts to write Scala code in notebooks for every dataset.", false),
        Opt("d", "Limiting report development to Fabric administrators.", false)
      ]),
    BankQuestion(
      "fabric-workloads-scope",
      "Which option lists all seven core workloads available within Microsoft Fabric?",
      "Fabric's workloads include Data Factory, Data Engineering, Data Warehouse, Data Science, Real-Time Intelligence, Power BI, and Copilot experiences woven across them.",
      [
        Opt("a", "Data Factory, Data Engineering, Data Warehouse, Data Science, Real-Time Intelligence, Power BI, Copilot", true),
        Opt("b", "Azure Synapse, Azure ML, Power Apps, Power Automate, Logic Apps, SQL Server, Stream Analytics", false),
        Opt("c", "Data Factory, Azure Databricks, Azure Monitor, Power BI, Fabric Admin, Fabric Insights, OneDrive", false),
        Opt("d", "Data Explorer, Azure Functions, Virtual Machines, Event Hub, Power BI, SharePoint, Teams", false)
      ]),
    BankQuestion(
      "fabric-onelake-concept",
      "What is the primary role of OneLake within Microsoft Fabric?",
      "OneLake acts as the single, unified data lake for Fabric, providing centralized storage with built-in governance, much like OneDrive for organizational data.",
      [
        Opt("a", "A virtual network gateway used to expose Fabric resources to the internet.", false),
        Opt("b", "The unified, organization-wide data lake that underpins every Fabric workload.", true),
        Opt("c", "A desktop tool for designing Power BI reports offline.", false),
        Opt("d", "An Azure billing account dedicated solely to Fabric capacities.", false)
      ]),
    BankQuestion(
      "fabric-delta-format",
      "Why is the Delta Parquet format foundational to Fabric's data architecture?",
      "Delta tables in Parquet deliver ACID transactions, schema enforcement, and time travel, enabling reliable analytics across Fabric workloads that share OneLake.",
      [
        Opt("a", "Because it is the only format compatible with CSV exports.", false),
        Opt("b", "Because it combines Parquet storage with ACID transactions, enabling reliable multi-engine access.", true),
        Opt("c", "Because it prevents Power BI from reading tables directly.", false),
        Opt("d", "Because it stores table data exclusively in SQL Server instances.", false)
      ]),
    BankQuestion(
      "fabric-shortcuts",
      "When should you use OneLake shortcuts in a Fabric solution?",
      "Shortcuts let teams virtualize external data lakes or other OneLake items without copying data, maintaining a single source of truth.",
      [
        Opt("a", "When you need to duplicate large datasets into OneLake for each workspace.", false),
        Opt("b", "When you want to reference external lake data or another OneLake item in place without ingesting it.", true),
        Opt("c", "When you need to encrypt files with customer-managed keys.", false),
        Opt("d", "When Power BI reports must be exported to Excel.", false)
      ]),
    BankQuestion(
      "fabric-mirroring",
      "What problem does Fabric's mirroring capability solve?",
      "Mirroring continuously replicates operational databases like Cosmos DB or Azure SQL into OneLake-managed Delta tables for analytics without impacting source workloads.",
      [
        Opt("a", "It encrypts data in transit between on-premises gateways and Fabric.", false),
        Opt("b", "It keeps a near-real-time replica of operational databases in OneLake for analytics with minimal source impact.", true),
        Opt("c", "It automatically creates PowerPoint summaries of Fabric reports.", false),
        Opt("d", "It converts Delta tables into Excel workbooks for business users.", false)
      ]),
    BankQuestion(
      "fabric-compute-storage",
      "Why does separating compute from storage matter in Microsoft Fabric?",
      "With OneLake providing shared storage, each workload can scale compute independently, pausing or bursting engines without duplicating data, which reduces cost and improves performance isolation.",
      [
        Opt("a", "It allows Fabric to store all data inside Power BI datasets only.", false),
        Opt("b", "It lets each workload scale or pause compute without moving or duplicating the data in OneLake.", true),
        Opt("c", "It requires every workload to share the same Spark cluster at all times.", false),
        Opt("d", "It prevents administrators from monitoring usage metrics.", false)
      ]),
    BankQuestion(
      "fabric-data-factory-selection",
      "Which scenario is the best fit for the Data Factory workload in Fabric?",
      "Data Factory in Fabric provides no-code and low-code data movement and orchestration with over 200 connectors and pipeline scheduling capabilities.",
      [
        Opt("a", "Building semantic models for enterprise reporting.", false),
        Opt("b", "Authoring pipelines that orchestrate ingestion from SaaS sources using prebuilt connectors and dataflows Gen2.", true),
        Opt("c", "Running large-scale Spark notebooks for feature engineering.", false),
        Opt("d", "Serving low-latency KPI scorecards through Direct Lake semantics.", false)
      ]),
    BankQuestion(
      "fabric-data-engineering-scenario",
      "A data engineer needs collaborative notebooks with Git integration to transform lakehouse tables. Which Fabric workload should they use?",
      "The Data Engineering workload provides lakehouses backed by Spark notebooks, Git integration, and Lakehouse Explorer for collaborative transformations.",
      [
        Opt("a", "Power BI workload", false),
        Opt("b", "Data Engineering workload", true),
        Opt("c", "Real-Time Intelligence workload", false),
        Opt("d", "Copilot workload", false)
      ]),
    BankQuestion(
      "fabric-data-warehouse-scenario",
      "What differentiates the Data Warehouse workload from the Lakehouse in Fabric?",
      "Fabric warehouses expose a T-SQL endpoint with full transactional capabilities and workload management while still storing tables in OneLake as Delta.",
      [
        Opt("a", "Warehouses store data in proprietary formats unavailable to other workloads.", false),
        Opt("b", "Warehouses deliver a dedicated SQL endpoint with full ACID semantics while persisting tables in OneLake.", true),
        Opt("c", "Warehouses cannot be queried with T-SQL.", false),
        Opt("d", "Warehouses require manual file management for every table.", false)
      ]),
    BankQuestion(
      "fabric-real-time-intelligence",
      "Which use case showcases the Real-Time Intelligence workload in Fabric?",
      "Real-Time Intelligence leverages event streams and KQL databases to capture and analyze telemetry instantly for alerting and dashboards.",
      [
        Opt("a", "Batch loading quarterly financial statements into a lakehouse.", false),
        Opt("b", "Monitoring IoT sensor events with event streams feeding a KQL database for anomaly detection.", true),
        Opt("c", "Designing paginated reports for printing.", false),
        Opt("d", "Authoring machine learning pipelines in notebooks.", false)
      ]),
    BankQuestion(
      "fabric-data-science-use",
      "How does the Data Science workload integrate with the rest of Fabric?",
      "Data Science provides managed notebooks, experiment tracking, and MLflow integration that read and write Delta tables in OneLake so models can operationalize across workloads.",
      [
        Opt("a", "It stores models in isolated blob storage that other workloads cannot access.", false),
        Opt("b", "It uses managed notebooks and MLflow, reading and writing Delta tables shared through OneLake.", true),
        Opt("c", "It only supports exporting models as PowerPoint decks.", false),
        Opt("d", "It requires provisioning separate Azure Databricks workspaces.", false)
      ]),
    BankQuestion(
      "fabric-copilot-powerbi",
      "Which Copilot capability accelerates Power BI development in Fabric?",
      "Copilot in Power BI can generate report pages, DAX calculations, and narrative summaries from natural language prompts, speeding iterative design.",
      [
        Opt("a", "Automatically deploying datasets to Azure Synapse without review.", false),
        Opt("b", "Generating visuals, DAX measures, and narratives from natural language descriptions.", true),
        Opt("c", "Creating custom connectors for unsupported SaaS sources.", false),
        Opt("d", "Provisioning new Fabric capacities automatically.", false)
      ]),
    BankQuestion(
      "fabric-copilot-accelerate",
      "Why does Copilot improve productivity for Fabric developers beyond Power BI?",
      "Copilot assists across workloads by drafting dataflows, pipeline activities, Spark code, and KQL queries from prompts, reducing manual coding time.",
      [
        Opt("a", "It replaces all governance approvals so developers can bypass security.", false),
        Opt("b", "It can author pipeline activities, notebooks, and queries from natural language prompts, speeding up development.", true),
        Opt("c", "It disables version control to simplify notebooks.", false),
        Opt("d", "It automatically tunes capacity SKUs without human input.", false)
      ]),
    BankQuestion(
      "fabric-purview-role",
      "What role does Microsoft Purview play within Fabric governance?",
      "Purview supplies Fabric with cataloging, lineage, data classification, and policy enforcement, forming the backbone of enterprise governance in the platform.",
      [
        Opt("a", "Purview is optional and only used for billing Fabric capacities.", false),
        Opt("b", "Purview provides centralized cataloging, lineage, classification, and policy management across Fabric data assets.", true),
        Opt("c", "Purview is required only for on-premises data gateways.", false),
        Opt("d", "Purview replaces the need for audit logs in Fabric.", false)
      ]),
    BankQuestion(
      "fabric-security-model",
      "Which combination exemplifies Fabric's universal security model for protecting data?",
      "Fabric supports row-level security (RLS), column-level security (CLS), object-level security (OLS), and dynamic data masking to ensure fine-grained access control across workloads.",
      [
        Opt("a", "Workbook locking and Excel password protection only.", false),
        Opt("b", "Row-level security, column-level security, object-level security, and dynamic data masking applied consistently across items.", true),
        Opt("c", "Firewall rules and VPN tunnels managed outside Fabric.", false),
        Opt("d", "Power BI sharing links without authentication.", false)
      ]),
    BankQuestion(
      "fabric-domains-governance",
      "How do domains and workspace approval workflows improve Fabric governance in large enterprises?",
      "Domains align Fabric items with business areas while approval workflows ensure new workspaces meet governance standards before provisioning, supporting decentralized yet controlled operations.",
      [
        Opt("a", "They allow any user to create workspaces anonymously to speed experimentation.", false),
        Opt("b", "They group workspaces by business area and enforce approval policies for new workspace creation.", true),
        Opt("c", "They automatically delete inactive workspaces without review.", false),
        Opt("d", "They encrypt datasets using personal certificates.", false)
      ]),
    BankQuestion(
      "fabric-lineage-impact",
      "Why are lineage and impact analysis views important in Fabric deployments?",
      "Lineage and impact analysis help stakeholders understand upstream dependencies and downstream effects of changes across pipelines, lakehouses, and reports, reducing regression risk.",
      [
        Opt("a", "They automatically upgrade capacities to the next SKU size.", false),
        Opt("b", "They reveal upstream and downstream relationships so teams can assess change impact before deployment.", true),
        Opt("c", "They disable sharing of certified datasets.", false),
        Opt("d", "They replace the need for deployment pipelines entirely.", false)
      ]),
    BankQuestion(
      "fabric-data-protection",
      "How do sensitivity labels and DLP policies protect data in Fabric?",
      "Sensitivity labels classify data and enforce encryption or access restrictions, while DLP policies detect and prevent risky sharing or exports of protected content across Fabric and M365.",
      [
        Opt("a", "They only apply to files stored in local desktops, not Fabric.", false),
        Opt("b", "They classify and monitor data so protected content cannot be shared or exported in violation of policy.", true),
        Opt("c", "They automatically convert Delta tables into CSV files for auditing.", false),
        Opt("d", "They remove the need for audit logs because data is encrypted.", false)
      ]),
    BankQuestion(
      "fabric-audit",
      "Why should Fabric administrators enable unified audit logging?",
      "Audit logs provide traceability for access, sharing, and configuration changes across Fabric items, supporting compliance investigations and proactive monitoring.",
      [
        Opt("a", "Because audit logs are required to schedule Data Factory pipelines.", false),
        Opt("b", "Because audit logs capture user and service actions on Fabric items, enabling compliance and security reviews.", true),
        Opt("c", "Because audit logs automatically create semantic models from raw data.", false),
        Opt("d", "Because audit logs replace the need for workspace roles.", false)
      ]),
    BankQuestion(
      "fabric-licensing-comparison",
      "Which statement correctly compares Power BI Pro, Power BI Premium Per User (PPU), and Fabric capacity licenses?",
      "Pro licenses provide report authoring and sharing in shared capacity, PPU adds premium features per user, while Fabric capacities (F SKUs) allocate dedicated compute for all Fabric workloads.",
      [
        Opt("a", "Pro and PPU both provide dedicated capacity, whereas Fabric capacities are pay-as-you-go for paginated reports only.", false),
        Opt("b", "Power BI Pro uses shared capacity, PPU adds premium features on a per-user basis, and Fabric capacities deliver dedicated compute for the entire Fabric platform.", true),
        Opt("c", "Fabric capacities can only run Power BI workloads, not Data Engineering.", false),
        Opt("d", "PPU eliminates the need for any capacity planning because workloads autoscale infinitely.", false)
      ]),
    BankQuestion(
      "fabric-shared-capacity",
      "What characterizes the shared capacity model in Fabric?",
      "Shared capacity pools resources across tenants, using bursting and smoothing to balance demand but throttling workloads that exceed limits, making it suitable for light usage only.",
      [
        Opt("a", "Resources are dedicated per workspace, eliminating throttling altogether.", false),
        Opt("b", "Workloads share pooled resources with automatic bursting and smoothing, but can be throttled if sustained demand is too high.", true),
        Opt("c", "Only Power BI report rendering is allowed; other workloads are blocked.", false),
        Opt("d", "It is required for F64 and higher capacities.", false)
      ]),
    BankQuestion(
      "fabric-capacity-optimization",
      "Which approach helps optimize cost when running workloads on Fabric capacities such as F4 or F64?",
      "Monitoring capacity metrics, pausing idle capacities, and right-sizing SKU levels based on actual utilization prevents over-provisioning and aligns spend to demand.",
      [
        Opt("a", "Leaving capacities running continuously regardless of workload demand.", false),
        Opt("b", "Regularly reviewing capacity metrics, scaling SKUs up or down, and pausing idle capacities during off-hours.", true),
        Opt("c", "Purchasing separate capacities for every workspace regardless of size.", false),
        Opt("d", "Disabling capacity metrics collection to reduce storage consumption.", false)
      ])
  ]

  /** Every bank question is single-choice with exactly one correct option among four. */
  lemma BankShape()
    ensures |FabricQuestionBank| == 25
    ensures forall i :: 0 <= i < |FabricQuestionBank| ==>
      FabricQuestionBank[i].qtype == Single && |FabricQuestionBank[i].options| == 4 &&
      CorrectCount(FabricQuestionBank[i].options) == 1
  {
  }

  /** The bank entry copied for a quiz: same contents, a new id. */
  function WithId(q: Question, id: string): Question {
    q.(id := id)
  }

  /**
   * The id data/quizzes.ts:760 gives every copied question. The backslashes escape both
   * interpolations, so the template is the same literal text for every question.
   */
  const EscapedTemplateId: string := "${prefix}-${question.id}"

  /** `buildQuizQuestions` as written: every copy gets the same literal id. */
  function BuildQuizQuestionsAsWritten(bank: seq<Question>, start: int, end: int): (qs: seq<Question>)
    ensures var part := Slice(bank, Max(0, start), Min(|bank|, end));
      |qs| == |part| && forall i :: 0 <= i < |qs| ==> qs[i] == WithId(part[i], EscapedTemplateId)
  {
    var part := Slice(bank, Max(0, start), Min(|bank|, end));
    seq(|part|, i requires 0 <= i < |part| => WithId(part[i], EscapedTemplateId))
  }

  /** `buildQuizQuestions` as intended: the id is the quiz id, a dash, and the bank id. */
  function BuildQuizQuestions(bank: seq<Question>, start: int, end: int, prefix: string): (qs: seq<Question>)
    ensures var part := Slice(bank, Max(0, start), Min(|bank|, end));
      |qs| == |part| && forall i :: 0 <= i < |qs| ==> qs[i] == WithId(part[i], prefix + "-" + part[i].id)
  {
    var part := Slice(bank, Max(0, start), Min(|bank|, end));
    seq(|part|, i requires 0 <= i < |part| => WithId(part[i], prefix + "-" + part[i].id))
  }

  /**
   * For a non-negative end, the built list is the bank range [max(0, start), min(len, end))
   * in bank order, each entry keeping everything but its id.
   */
  lemma BuildQuizQuestionsRange(bank: seq<Question>, start: int, end: int, prefix: string)
    requires end >= 0
    ensures var lo, hi := Max(0, start), Min(|bank|, end);
      var qs := BuildQuizQuestions(bank, start, end, prefix);
      |qs| == Max(0, hi - lo) &&
      forall i :: 0 <= i < |qs| ==> qs[i] == bank[lo + i].(id := prefix + "-" + bank[lo + i].id)
  {
  }

  /** As written, all questions of a built quiz share one id. */
  lemma AsWrittenIdsCollide(bank: seq<Question>, start: int, end: int)
    ensures var qs := BuildQuizQuestionsAsWritten(bank, start, end);
      forall i, j :: 0 <= i < |qs| && 0 <= j < |qs| ==> qs[i].id == qs[j].id
  {
  }

  /**
   * The consequence: looking a question up by its id (as the session does to show or
   * grade it) always finds the first question of the quiz.
   */
  lemma AsWrittenLookupFindsFirst(bank: seq<Question>, start: int, end: int, k: nat)
    requires k < |BuildQuizQuestionsAsWritten(bank, start, end)|
    ensures var qs := BuildQuizQuestionsAsWritten(bank, start, end);
      FindQuestion(qs, qs[k].id) == Some(qs[0])
  {
    var qs := BuildQuizQuestionsAsWritten(bank, start, end);
    assert qs[0].id == qs[k].id;
  }

  /** As intended, the built ids are distinct whenever the bank ids in the range are. */
  lemma IntendedIdsDistinct(bank: seq<Question>, start: int, end: int, prefix: string)
    requires forall i, j :: 0 <= i < j < |bank| ==> bank[i].id != bank[j].id
    ensures var qs := BuildQuizQuestions(bank, start, end, prefix);
      forall i, j :: 0 <= i < j < |qs| ==> qs[i].id != qs[j].id
  {
    var part := Slice(bank, Max(0, start), Min(|bank|, end));
    var qs := BuildQuizQuestions(bank, start, end, prefix);
    forall i, j | 0 <= i < j < |qs| ensures qs[i].id != qs[j].id {
      var lo := SliceIndex(Max(0, start), |bank|);
      assert part[i] == bank[lo + i] && part[j] == bank[lo + j];
      assert qs[i].id[|prefix| + 1..] == part[i].id;
      assert qs[j].id[|prefix| + 1..] == part[j].id;
    }
  }

  /** A built-in quiz definition with its id. */
  datatype StaticQuiz = StaticQuiz(id: string, def: QuizDefinition)

  /** `createQuiz` of data/quizzes.ts, with the question builder passed in. */
  function MakeQuiz(id: string, title: string, description: string, focusArea: string, level: int,
                    difficulty: Difficulty, duration: int, recommendedFor: string,
                    questions: seq<Question>, accessCode: string, joinLink: string): StaticQuiz
  {
    StaticQuiz(id, QuizDefinition(title, description, Some(duration), Some(level), Some(difficulty),
      Some(focusArea), Some(recommendedFor), Some(accessCode), Some(joinLink), None, None, None, None, None,
      questions))
  }

  /** A quiz over the bank entries in `range`. */
  function QuizFromRange(bank: seq<Question>, id: string, title: string, description: string, focusArea: string,
                         level: int, difficulty: Difficulty, duration: int, recommendedFor: string,
                         range: (int, int), accessCode: string, joinLink: string): StaticQuiz
  {
    MakeQuiz(id, title, description, focusArea, level, difficulty, duration, recommendedFor,
      BuildQuizQuestions(bank, range.0, range.1, id), accessCode, joinLink)
  }

  /** The three quizzes of data/quizzes.ts over a given bank. */
  function QuizzesOver(bank: seq<Question>): (qs: seq<StaticQuiz>)
    ensures |qs| == 3
  {
    [
      QuizFromRange(bank, "fabric-foundations", "Fabric Foundations",
        "Build confidence with the core terminology, governance model, and OneLake basics that power Fabric.",
        "Fundamentals & unified architecture", 1, Beginner, 900,
        "New to Fabric or migrating from legacy analytics stacks.",
        (0, 8), "482913", "https://quizzyquizz.app/join/fabric-foundations"),
      QuizFromRange(bank, "fabric-practitioner", "Fabric Practitioner",
        "Validate how Fabric workloads collaborate, secure data, and orchestrate production-ready analytics.",
        "Workloads, governance & collaboration", 2, Intermediate, 1500,
        "Teams deploying Fabric at scale and refining operational excellence.",
        (8, 16), "735204", "https://quizzyquizz.app/join/fabric-practitioner"),
      QuizFromRange(bank, "fabric-expert", "Fabric Expert",
        "Prove mastery across capacity planning, real-time intelligence, and enterprise rollout strategies.",
        "Optimization & advanced operations", 3, Advanced, 2100,
        "Leaders architecting complex Fabric solutions with high governance requirements.",
        (16, |bank|), "951776", "https://quizzyquizz.app/join/fabric-expert")
    ]
  }

  /** The exported `quizzes` list, built with the intended question ids. */
  function Quizzes(): seq<StaticQuiz> {
    QuizzesOver(FabricQuestionBank)
  }

  /** Over a 25-entry bank: levels 1, 2, 3 with rising difficulty; 8, 8 and 9 questions. */
  lemma QuizzesOverShape(bank: seq<Question>)
    requires |bank| == 25
    ensures var qs := QuizzesOver(bank);
      qs[0].def.level == Some(1) && qs[1].def.level == Some(2) && qs[2].def.level == Some(3) &&
      qs[0].def.difficulty == Some(Beginner) && qs[1].def.difficulty == Some(Intermediate) &&
      qs[2].def.difficulty == Some(Advanced) &&
      |qs[0].def.questions| == 8 && |qs[1].def.questions| == 8 && |qs[2].def.questions| == 9
  {
  }

  /**
   * The three quizzes take the ranges [0, 8), [8, 16) and [16, len) of the bank: together
   * every entry once, in bank order, with the quiz id in front of the entry's id.
   */
  lemma QuizzesCoverBank(bank: seq<Question>)
    requires |bank| >= 16
    ensures var qs := QuizzesOver(bank);
      var a, b, c := qs[0].def.questions, qs[1].def.questions, qs[2].def.questions;
      |a| == 8 && |b| == 8 && |a| + |b| + |c| == |bank| &&
      (forall i :: 0 <= i < 8 ==> a[i] == bank[i].(id := qs[0].id + "-" + bank[i].id)) &&
      (forall i :: 0 <= i < 8 ==> b[i] == bank[8 + i].(id := qs[1].id + "-" + bank[8 + i].id)) &&
      (forall i :: 0 <= i < |c| ==> c[i] == bank[16 + i].(id := qs[2].id + "-" + bank[16 + i].id))
  {
    QuizzesOverQuestions(bank);
    BuildQuizQuestionsRange(bank, 0, 8, "fabric-foundations");
    BuildQuizQuestionsRange(bank, 8, 16, "fabric-practitioner");
    BuildQuizQuestionsRange(bank, 16, |bank|, "fabric-expert");
  }

  lemma QuizzesOverQuestions(bank: seq<Question>)
    ensures var qs := QuizzesOver(bank);
      qs[0].id == "fabric-foundations" && qs[0].def.questions == BuildQuizQuestions(bank, 0, 8, qs[0].id) &&
      qs[1].id == "fabric-practitioner" && qs[1].def.questions == BuildQuizQuestions(bank, 8, 16, qs[1].id) &&
      qs[2].id == "fabric-expert" && qs[2].def.questions == BuildQuizQuestions(bank, 16, |bank|, qs[2].id)
  {
  }
}
